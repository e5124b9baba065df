/**
 Every step of every interleaving keeps `Ring.Inv`.
 */
module RingInvariant {
  import opened Words
  import opened Layout
  import opened StoreBuffer
  import opened Ring

  function Unbounded(k: nat): Config {
    Config(k, false)
  }

  // ------------------------------------------------------- chains of drains

  lemma SamePayload(m: seq<int>, m': seq<int>, s: int, k: nat)
    requires forall j: nat :: j < SLOT_WORDS ==> At(m, SlotWord(s, k, j)) == At(m', SlotWord(s, k, j))
    ensures Payload(m, s, k) == Payload(m', s, k)
  {
  }

  /** The producer's chain survives stores of the other side, a rising visible head, further
      releases of visible elements and further offers. */
  lemma {:induction false} ProducerChainKeeps(
      m: seq<int>, m': seq<int>, buf: seq<Store>, k: nat, head: int, head': int,
      count: nat, count': nat, offered: seq<seq<int>>, offered': seq<seq<int>>)
    requires ProducerChain(m, buf, k, head, count, offered)
    requires |m| == |m'| && forall a: nat :: ProducerAddress(a) ==> At(m, a) == At(m', a)
    requires head <= head' && count <= count' <= At(m, TAIL) && offered <= offered'
    ensures ProducerChain(m', buf, k, head', count', offered')
    decreases |buf|
  {
    forall s: nat | count' <= s < At(m, TAIL) ensures Payload(m', s, k) == offered'[s] {
      SamePayload(m, m', s, k);
    }
    if buf != [] {
      var n, n' := Write(m, buf[0]), Write(m', buf[0]);
      ProducerChainKeeps(n, n', buf[1..], k, head, head', count, count', offered, offered');
    }
  }

  lemma {:induction false} ProducerChainAppend(
      m: seq<int>, buf: seq<Store>, st: Store, k: nat, head: int, count: nat, offered: seq<seq<int>>)
    requires ProducerChain(m, buf, k, head, count, offered)
    requires ProducerStore(Drained(m, buf), k, st)
    requires ProducerSound(Write(Drained(m, buf), st), k, head, count, offered)
    ensures ProducerChain(m, buf + [st], k, head, count, offered)
    decreases |buf|
  {
    if buf == [] {
      assert buf + [st] == [st];
      assert [st][1..] == [];
    } else {
      assert (buf + [st])[1..] == buf[1..] + [st];
      ProducerChainAppend(Write(m, buf[0]), buf[1..], st, k, head, count, offered);
    }
  }

  lemma {:induction false} ProducerChainEnd(
      m: seq<int>, buf: seq<Store>, k: nat, head: int, count: nat, offered: seq<seq<int>>)
    requires ProducerChain(m, buf, k, head, count, offered)
    ensures ProducerSound(Drained(m, buf), k, head, count, offered)
    ensures At(m, TAIL) <= At(Drained(m, buf), TAIL)
    ensures forall st <- buf :: ProducerAddress(st.addr)
    decreases |buf|
  {
    if buf != [] {
      ProducerChainEnd(Write(m, buf[0]), buf[1..], k, head, count, offered);
      assert buf == [buf[0]] + buf[1..];
    }
  }

  lemma {:induction false} ConsumerChainKeeps(
      m: seq<int>, m': seq<int>, buf: seq<Store>, tail: int, tail': int, count: nat, count': nat)
    requires ConsumerChain(m, buf, tail, count)
    requires |m| == |m'| && forall a: nat :: ConsumerAddress(a) ==> At(m, a) == At(m', a)
    requires tail <= tail' && count <= count'
    ensures ConsumerChain(m', buf, tail', count')
    decreases |buf|
  {
    if buf != [] {
      ConsumerChainKeeps(Write(m, buf[0]), Write(m', buf[0]), buf[1..], tail, tail', count, count');
    }
  }

  lemma {:induction false} ConsumerChainAppend(m: seq<int>, buf: seq<Store>, st: Store, tail: int, count: nat)
    requires ConsumerChain(m, buf, tail, count)
    requires ConsumerStore(Drained(m, buf), st)
    requires ConsumerSound(Write(Drained(m, buf), st), tail, count)
    ensures ConsumerChain(m, buf + [st], tail, count)
    decreases |buf|
  {
    if buf == [] {
      assert buf + [st] == [st];
      assert [st][1..] == [];
    } else {
      assert (buf + [st])[1..] == buf[1..] + [st];
      ConsumerChainAppend(Write(m, buf[0]), buf[1..], st, tail, count);
    }
  }

  lemma {:induction false} ConsumerChainEnd(m: seq<int>, buf: seq<Store>, tail: int, count: nat)
    requires ConsumerChain(m, buf, tail, count)
    ensures ConsumerSound(Drained(m, buf), tail, count)
    ensures At(m, HEAD) <= At(Drained(m, buf), HEAD)
    ensures forall st <- buf :: ConsumerAddress(st.addr)
    decreases |buf|
  {
    if buf != [] {
      ConsumerChainEnd(Write(m, buf[0]), buf[1..], tail, count);
      assert buf == [buf[0]] + buf[1..];
    }
  }

  // ------------------------------------------------------------ what holds

  /** The cursor chain over visible and buffered cursors, and what each side reads of the
      other side's words. */
  lemma Chain(k: nat, s: State)
    requires Inv(k, s)
    ensures 0 <= At(PView(s), HEAD_CACHE) <= At(s.mem, HEAD) <= |s.consumed|
    ensures |s.consumed| <= At(CView(s), TAIL_CACHE) <= At(s.mem, TAIL) <= |s.offered|
    ensures |s.offered| <= At(PView(s), HEAD_CACHE) + Pow2(k) - 1
    ensures At(PView(s), HEAD) == At(s.mem, HEAD) && At(PView(s), SYNC) == At(s.mem, SYNC)
    ensures At(CView(s), TAIL) == At(s.mem, TAIL) && At(CView(s), SYNC) == At(s.mem, SYNC)
    ensures forall a: nat :: a >= ARRAY_BASE ==> At(CView(s), a) == At(s.mem, a)
  {
    ProducerChainEnd(s.mem, s.pbuf, k, At(s.mem, HEAD), |s.consumed|, s.offered);
    ConsumerChainEnd(s.mem, s.cbuf, At(s.mem, TAIL), |s.consumed|);
    DrainedElsewhere(s.mem, s.pbuf, HEAD);
    DrainedElsewhere(s.mem, s.pbuf, SYNC);
    DrainedElsewhere(s.mem, s.cbuf, TAIL);
    DrainedElsewhere(s.mem, s.cbuf, SYNC);
    forall a: nat | a >= ARRAY_BASE ensures At(CView(s), a) == At(s.mem, a) {
      DrainedElsewhere(s.mem, s.cbuf, a);
    }
  }

  /** "Full" is exact for the cached head, however stale. */
  lemma FullTestExact(k: nat, s: State)
    requires Inv(k, s)
    ensures LooksFull(Unbounded(k), |s.offered|, At(PView(s), HEAD_CACHE))
       <==> |s.offered| - At(PView(s), HEAD_CACHE) == Pow2(k) - 1
  {
    Chain(k, s);
    MaskedFull(|s.offered| + 1 - At(PView(s), HEAD_CACHE), k);
  }

  /** "Empty" is exact for the cached tail; the difference it masks is never positive. */
  lemma EmptyTestExact(k: nat, s: State)
    requires Inv(k, s)
    ensures LooksEmpty(Unbounded(k), |s.consumed|, At(CView(s), TAIL_CACHE))
       <==> |s.consumed| == At(CView(s), TAIL_CACHE)
  {
    Chain(k, s);
    MaskedEmpty(|s.consumed| - At(CView(s), TAIL_CACHE), k);
  }

  // ------------------------------------------------------------ step by step

  /** A payload store hits no live slot. */
  lemma PayloadStoreSound(m: seq<int>, k: nat, j: nat, v: int, head: int, count: nat, offered: seq<seq<int>>)
    requires ProducerSound(m, k, head, count, offered) && head <= count && j < SLOT_WORDS
    ensures ProducerSound(Write(m, Store(SlotWord(At(m, TAIL), k, j), v)), k, head, count, offered)
  {
    var m' := Write(m, Store(SlotWord(At(m, TAIL), k, j), v));
    forall s: nat | count <= s < At(m, TAIL) ensures Payload(m', s, k) == offered[s] {
      MaskedDistinct(s, At(m, TAIL), k);
      SamePayload(m, m', s, k);
    }
  }

  lemma PutKeepsInv(k: nat, s: State, j: nat, v: int)
    requires Inv(k, s) && s.ppc.PWindow? && j < SLOT_WORDS
    ensures Inv(k, Step(Unbounded(k), s, PPut(j, v)))
  {
    Chain(k, s);
    ProducerChainEnd(s.mem, s.pbuf, k, At(s.mem, HEAD), |s.consumed|, s.offered);
    var st := Store(SlotWord(|s.offered|, k, j), v);
    PayloadStoreSound(PView(s), k, j, v, At(s.mem, HEAD), |s.consumed|, s.offered);
    ProducerChainAppend(s.mem, s.pbuf, st, k, At(s.mem, HEAD), |s.consumed|, s.offered);
    DrainedAppend(s.mem, s.pbuf, st);
  }

  lemma SetHeadCacheKeepsInv(k: nat, s: State)
    requires Inv(k, s) && s.ppc.PSetCache?
    ensures Inv(k, Step(Unbounded(k), s, PAdvance))
  {
    Chain(k, s);
    ProducerChainEnd(s.mem, s.pbuf, k, At(s.mem, HEAD), |s.consumed|, s.offered);
    var st := Store(HEAD_CACHE, s.ppc.head);
    var v' := Write(PView(s), st);
    forall i: nat | |s.consumed| <= i < At(v', TAIL) ensures Payload(v', i, k) == s.offered[i] {
      SamePayload(PView(s), v', i, k);
    }
    ProducerChainAppend(s.mem, s.pbuf, st, k, At(s.mem, HEAD), |s.consumed|, s.offered);
    DrainedAppend(s.mem, s.pbuf, st);
  }

  lemma OfferKeepsDelivered(s: State, s': State, payload: seq<int>)
    requires Delivered(s) && |payload| == SLOT_WORDS
    requires s'.offered == s.offered + [payload] && s'.consumed == s.consumed && s'.reading == s.reading
    ensures Delivered(s')
  {
  }

  /** Publishing the window's slot: its words are the payload offered. */
  lemma SetTailSound(k: nat, v: seq<int>, head: int, count: nat, offered: seq<seq<int>>)
    requires ProducerSound(v, k, head, count, offered) && At(v, TAIL) == |offered| && |v| > TAIL
    requires |offered| + 1 <= At(v, HEAD_CACHE) + Pow2(k) - 1
    ensures ProducerSound(Write(v, Store(TAIL, |offered| + 1)), k, head, count,
                          offered + [Payload(v, |offered|, k)])
  {
    var t := |offered|;
    var v' := Write(v, Store(TAIL, t + 1));
    forall i: nat | count <= i < t + 1 ensures Payload(v', i, k) == Payload(v, i, k) {
      SamePayload(v, v', i, k);
    }
  }

  lemma SetTailKeepsChain(m: seq<int>, buf: seq<Store>, k: nat, head: int, count: nat, offered: seq<seq<int>>)
    requires ProducerChain(m, buf, k, head, count, offered) && |m| > TAIL
    requires At(Drained(m, buf), TAIL) == |offered|
    requires |offered| + 1 <= At(Drained(m, buf), HEAD_CACHE) + Pow2(k) - 1
    ensures ProducerChain(m, buf + [Store(TAIL, |offered| + 1)], k, head, count,
                          offered + [Payload(Drained(m, buf), |offered|, k)])
    ensures At(Drained(m, buf + [Store(TAIL, |offered| + 1)]), TAIL) == |offered| + 1
  {
    var v := Drained(m, buf);
    var st, offered' := Store(TAIL, |offered| + 1), offered + [Payload(v, |offered|, k)];
    ProducerChainEnd(m, buf, k, head, count, offered);
    SetTailSound(k, v, head, count, offered);
    ProducerChainKeeps(m, m, buf, k, head, head, count, count, offered, offered');
    assert ProducerStore(v, k, st);
    ProducerChainAppend(m, buf, st, k, head, count, offered');
    DrainedAppend(m, buf, st);
  }

  lemma SetTailKeepsInv(k: nat, s: State)
    requires Inv(k, s) && s.ppc.POffering?
    ensures Inv(k, Step(Unbounded(k), s, PAdvance))
  {
    var s' := Step(Unbounded(k), s, PAdvance);
    SetTailKeepsChain(s.mem, s.pbuf, k, At(s.mem, HEAD), |s.consumed|, s.offered);
    OfferKeepsDelivered(s, s', Payload(PView(s), |s.offered|, k));
  }

  /** A load or a test only moves the program counter. */
  lemma ProducerLoadKeepsInv(k: nat, s: State, pc: ProducerPc, held: int)
    requires Inv(k, s)
    requires ProducerPcSound(s.(ppc := pc, heldAtRead := held), k)
    ensures Inv(k, s.(ppc := pc, heldAtRead := held))
  {
  }

  lemma ProducerLoadSound(k: nat, s: State)
    requires Inv(k, s) && !s.ppc.PSetCache? && !s.ppc.POffering?
    ensures ProducerPcSound(Step(Unbounded(k), s, PAdvance), k)
  {
    Chain(k, s);
    FullTestExact(k, s);
  }

  lemma ProducerAdvanceKeepsInv(k: nat, s: State)
    requires Inv(k, s)
    ensures Inv(k, Step(Unbounded(k), s, PAdvance))
  {
    if s.ppc.PSetCache? {
      SetHeadCacheKeepsInv(k, s);
    } else if s.ppc.POffering? {
      SetTailKeepsInv(k, s);
    } else {
      ProducerLoadSound(k, s);
      var s' := Step(Unbounded(k), s, PAdvance);
      ProducerLoadKeepsInv(k, s, s'.ppc, s'.heldAtRead);
    }
  }

  lemma ProducerDrainKeepsInv(k: nat, s: State)
    requires Inv(k, s) && s.pbuf != []
    ensures Inv(k, Step(Unbounded(k), s, PDrain))
  {
    Chain(k, s);
    var m' := Write(s.mem, s.pbuf[0]);
    ConsumerChainKeeps(s.mem, m', s.cbuf, At(s.mem, TAIL), At(m', TAIL), |s.consumed|, |s.consumed|);
    ConsumerViewUnmoved(s, m');
  }

  /** A drain of the producer moves no word the consumer owns. */
  lemma ConsumerViewUnmoved(s: State, m': seq<int>)
    requires forall a: nat :: ConsumerAddress(a) ==> At(s.mem, a) == At(m', a)
    requires |m'| == |s.mem|
    ensures forall a: nat :: ConsumerAddress(a) ==> At(Drained(m', s.cbuf), a) == At(CView(s), a)
  {
    forall a: nat | ConsumerAddress(a) ensures At(Drained(m', s.cbuf), a) == At(CView(s), a) {
      DrainedPointwise(s.mem, m', s.cbuf, a);
    }
  }

  lemma {:induction false} DrainedPointwise(m: seq<int>, m': seq<int>, buf: seq<Store>, a: nat)
    requires |m| == |m'| && At(m, a) == At(m', a)
    ensures At(Drained(m, buf), a) == At(Drained(m', buf), a)
    decreases |buf|
  {
    if buf != [] {
      DrainedPointwise(Write(m, buf[0]), Write(m', buf[0]), buf[1..], a);
    }
  }

  lemma ProducerViewUnmoved(s: State, m': seq<int>)
    requires forall a: nat :: ProducerAddress(a) ==> At(s.mem, a) == At(m', a)
    requires |m'| == |s.mem|
    ensures forall a: nat :: ProducerAddress(a) ==> At(Drained(m', s.pbuf), a) == At(PView(s), a)
  {
    forall a: nat | ProducerAddress(a) ensures At(Drained(m', s.pbuf), a) == At(PView(s), a) {
      DrainedPointwise(s.mem, m', s.pbuf, a);
    }
  }

  lemma ConsumerDrainKeepsInv(k: nat, s: State)
    requires Inv(k, s) && s.cbuf != []
    ensures Inv(k, Step(Unbounded(k), s, CDrain))
  {
    Chain(k, s);
    var m' := Write(s.mem, s.cbuf[0]);
    ProducerChainKeeps(s.mem, m', s.pbuf, k, At(s.mem, HEAD), At(m', HEAD),
                       |s.consumed|, |s.consumed|, s.offered, s.offered);
    ProducerViewUnmoved(s, m');
  }

  lemma SyncKeepsInv(k: nat, s: State, v: int)
    requires Inv(k, s)
    ensures Inv(k, s.(mem := Write(s.mem, Store(SYNC, v))))
  {
    var m' := Write(s.mem, Store(SYNC, v));
    Chain(k, s);
    ProducerChainKeeps(s.mem, m', s.pbuf, k, At(s.mem, HEAD), At(s.mem, HEAD),
                       |s.consumed|, |s.consumed|, s.offered, s.offered);
    ConsumerChainKeeps(s.mem, m', s.cbuf, At(s.mem, TAIL), At(s.mem, TAIL), |s.consumed|, |s.consumed|);
    ProducerViewUnmoved(s, m');
    ConsumerViewUnmoved(s, m');
  }

  lemma SetTailCacheKeepsInv(k: nat, s: State)
    requires Inv(k, s) && s.cpc.CSetCache?
    ensures Inv(k, Step(Unbounded(k), s, CAdvance))
  {
    Chain(k, s);
    ConsumerChainEnd(s.mem, s.cbuf, At(s.mem, TAIL), |s.consumed|);
    var st := Store(TAIL_CACHE, s.cpc.tail);
    ConsumerChainAppend(s.mem, s.cbuf, st, At(s.mem, TAIL), |s.consumed|);
    DrainedAppend(s.mem, s.cbuf, st);
  }

  lemma ReleaseKeepsDelivered(s: State, s': State)
    requires Delivered(s) && |s.consumed| < |s.offered|
    requires s'.consumed == s.consumed + [s.reading] && s'.reading == map[] && s'.offered == s.offered
    ensures Delivered(s')
  {
  }

  lemma SetHeadKeepsChain(m: seq<int>, buf: seq<Store>, tail: int, count: nat)
    requires ConsumerChain(m, buf, tail, count) && |m| > HEAD
    requires At(Drained(m, buf), HEAD) == count < At(Drained(m, buf), TAIL_CACHE)
    ensures ConsumerChain(m, buf + [Store(HEAD, count + 1)], tail, count + 1)
    ensures At(Drained(m, buf + [Store(HEAD, count + 1)]), HEAD) == count + 1
  {
    var st := Store(HEAD, count + 1);
    ConsumerChainKeeps(m, m, buf, tail, tail, count, count + 1);
    ConsumerChainEnd(m, buf, tail, count + 1);
    ConsumerChainAppend(m, buf, st, tail, count + 1);
    DrainedAppend(m, buf, st);
  }

  lemma SetHeadKeepsInv(k: nat, s: State)
    requires Inv(k, s) && s.cpc.CReleasing?
    ensures Inv(k, Step(Unbounded(k), s, CAdvance))
  {
    var s' := Step(Unbounded(k), s, CAdvance);
    var head, n := At(s.mem, HEAD), |s.consumed|;
    Chain(k, s);
    ProducerChainKeeps(s.mem, s.mem, s.pbuf, k, head, head, n, n + 1, s.offered, s.offered);
    SetHeadKeepsChain(s.mem, s.cbuf, At(s.mem, TAIL), n);
    ReleaseKeepsDelivered(s, s');
  }

  /** A load or a test only moves the program counter. */
  lemma ConsumerLoadKeepsInv(k: nat, s: State, pc: ConsumerPc, visible: int)
    requires Inv(k, s)
    requires ConsumerPcSound(s.(cpc := pc, visibleAtRead := visible))
    ensures Inv(k, s.(cpc := pc, visibleAtRead := visible))
  {
  }

  lemma ConsumerAdvanceKeepsInv(k: nat, s: State)
    requires Inv(k, s)
    ensures Inv(k, Step(Unbounded(k), s, CAdvance))
  {
    if s.cpc.CSetCache? {
      SetTailCacheKeepsInv(k, s);
    } else if s.cpc.CReleasing? {
      SetHeadKeepsInv(k, s);
    } else {
      ConsumerLoadSound(k, s);
      var s' := Step(Unbounded(k), s, CAdvance);
      ConsumerLoadKeepsInv(k, s, s'.cpc, s'.visibleAtRead);
    }
  }

  lemma ConsumerLoadSound(k: nat, s: State)
    requires Inv(k, s) && !s.cpc.CSetCache? && !s.cpc.CReleasing?
    ensures ConsumerPcSound(Step(Unbounded(k), s, CAdvance))
  {
    Chain(k, s);
    EmptyTestExact(k, s);
  }

  /** Between `poll` and `releaseCacheLine` every load returns the offered word. */
  lemma WindowReadsOffered(k: nat, s: State, j: nat)
    requires Inv(k, s) && s.cpc.CWindow? && j < SLOT_WORDS
    ensures |s.consumed| < |s.offered|
    ensures At(CView(s), SlotWord(s.cpc.currentHead, k, j)) == s.offered[|s.consumed|][j]
  {
    Chain(k, s);
    var n := |s.consumed|;
    assert Payload(s.mem, n, k) == s.offered[n];
    assert Payload(s.mem, n, k)[j] == At(s.mem, SlotWord(n, k, j));
  }

  lemma GetKeepsInv(k: nat, s: State, j: nat)
    requires Inv(k, s)
    ensures Inv(k, Step(Unbounded(k), s, CGet(j)))
  {
    if s.cpc.CWindow? && j < SLOT_WORDS {
      WindowReadsOffered(k, s, j);
    }
  }

  lemma OfferCallKeepsInv(k: nat, s: State)
    requires Inv(k, s)
    ensures Inv(k, Step(Unbounded(k), s, POffer))
  {
    ProducerLoadKeepsInv(k, s, Step(Unbounded(k), s, POffer).ppc, s.heldAtRead);
  }

  lemma ReleaseCallKeepsInv(k: nat, s: State)
    requires Inv(k, s)
    ensures Inv(k, Step(Unbounded(k), s, CRelease))
  {
    ConsumerLoadKeepsInv(k, s, Step(Unbounded(k), s, CRelease).cpc, s.visibleAtRead);
  }

  lemma StepKeepsInv(k: nat, s: State, a: Action)
    requires Inv(k, s)
    ensures Inv(k, Step(Unbounded(k), s, a))
  {
    match a
    case PAdvance => ProducerAdvanceKeepsInv(k, s);
    case PPut(j, v) => if s.ppc.PWindow? && j < SLOT_WORDS { PutKeepsInv(k, s, j, v); }
    case POffer => OfferCallKeepsInv(k, s);
    case PDrain => if s.pbuf != [] { ProducerDrainKeepsInv(k, s); }
    case PSync(v) => SyncKeepsInv(k, s, v);
    case CAdvance => ConsumerAdvanceKeepsInv(k, s);
    case CGet(j) => GetKeepsInv(k, s, j);
    case CRelease => ReleaseCallKeepsInv(k, s);
    case CDrain => if s.cbuf != [] { ConsumerDrainKeepsInv(k, s); }
    case CSync(v) => SyncKeepsInv(k, s, v);
  }

  /** The invariant holds after every run of every interleaving. */
  lemma {:induction false} ReachableInv(k: nat, s: State, run: seq<Action>)
    requires Inv(k, s)
    ensures Inv(k, Exec(Unbounded(k), s, run))
    decreases |run|
  {
    if run != [] {
      StepKeepsInv(k, s, run[0]);
      ReachableInv(k, Step(Unbounded(k), s, run[0]), run[1..]);
    }
  }
}
