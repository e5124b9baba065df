/**
 Java's `long` cursors wrap at 2^63.  The wrapping ring runs in lock step with the
 unbounded one: `WrapState` maps every state of the unbounded ring to one of the wrapping
 ring, and commutes with every step, so every decision, address and delivered word of the
 Java queue is that of the unbounded queue, on runs of any length.
 */
module WrapRefinement {
  import opened Words
  import opened Layout
  import opened StoreBuffer
  import opened Ring
  import opened RingInvariant
  import opened RingTheorems

  function Wrapping(k: nat): Config {
    Config(k, true)
  }

  function WrapWords(m: seq<int>): (w: seq<int>)
    ensures |w| == |m|
  {
    seq(|m|, i requires 0 <= i < |m| => Wrap64(m[i]))
  }

  function WrapStore(st: Store): Store {
    Store(st.addr, Wrap64(st.value))
  }

  function WrapBuffer(buf: seq<Store>): (w: seq<Store>)
    ensures |w| == |buf|
  {
    seq(|buf|, i requires 0 <= i < |buf| => WrapStore(buf[i]))
  }

  function WrapPayloads(ps: seq<seq<int>>): (w: seq<seq<int>>)
    ensures |w| == |ps|
  {
    seq(|ps|, i requires 0 <= i < |ps| => WrapWords(ps[i]))
  }

  function WrapReading(r: map<nat, int>): map<nat, int> {
    map j | j in r :: Wrap64(r[j])
  }

  function WrapReadings(rs: seq<map<nat, int>>): (w: seq<map<nat, int>>)
    ensures |w| == |rs|
  {
    seq(|rs|, i requires 0 <= i < |rs| => WrapReading(rs[i]))
  }

  function WrapProducer(pc: ProducerPc): ProducerPc {
    match pc
    case PIdle => PIdle
    case PTest(t) => PTest(Wrap64(t))
    case PLoadHead(t) => PLoadHead(Wrap64(t))
    case PSetCache(t, h) => PSetCache(Wrap64(t), Wrap64(h))
    case PRetest(t) => PRetest(Wrap64(t))
    case PWindow(t) => PWindow(Wrap64(t))
    case POffering(t) => POffering(Wrap64(t))
  }

  function WrapConsumer(pc: ConsumerPc): ConsumerPc {
    match pc
    case CIdle => CIdle
    case CTest(h) => CTest(Wrap64(h))
    case CLoadTail(h) => CLoadTail(Wrap64(h))
    case CSetCache(h, t) => CSetCache(Wrap64(h), Wrap64(t))
    case CRetest(h) => CRetest(Wrap64(h))
    case CWindow(h) => CWindow(Wrap64(h))
    case CReleasing(h) => CReleasing(Wrap64(h))
  }

  function WrapState(s: State): State {
    State(WrapWords(s.mem), WrapBuffer(s.pbuf), WrapBuffer(s.cbuf), WrapProducer(s.ppc), WrapConsumer(s.cpc),
          WrapPayloads(s.offered), WrapReadings(s.consumed), WrapReading(s.reading),
          Wrap64(s.heldAtRead), Wrap64(s.visibleAtRead))
  }

  lemma WrapAt(m: seq<int>, a: nat)
    ensures At(WrapWords(m), a) == Wrap64(At(m, a))
  {
  }

  lemma WrapWrite(m: seq<int>, st: Store)
    ensures Write(WrapWords(m), WrapStore(st)) == WrapWords(Write(m, st))
  {
  }

  lemma {:induction false} WrapDrained(m: seq<int>, buf: seq<Store>)
    ensures Drained(WrapWords(m), WrapBuffer(buf)) == WrapWords(Drained(m, buf))
    decreases |buf|
  {
    if buf != [] {
      WrapWrite(m, buf[0]);
      assert WrapBuffer(buf)[1..] == WrapBuffer(buf[1..]);
      WrapDrained(Write(m, buf[0]), buf[1..]);
    }
  }

  lemma WrapSlot(s: int, k: nat, j: nat)
    requires k <= 64
    ensures SlotWord(Wrap64(s), k, j) == SlotWord(s, k, j)
  {
    MaskedWrap(s, k);
  }

  lemma WrapPayload(m: seq<int>, s: int, k: nat)
    requires k <= 64
    ensures Payload(WrapWords(m), Wrap64(s), k) == WrapWords(Payload(m, s, k))
  {
    forall j: nat | j < SLOT_WORDS
      ensures At(WrapWords(m), SlotWord(Wrap64(s), k, j)) == Wrap64(At(m, SlotWord(s, k, j)))
    {
      WrapSlot(s, k, j);
      WrapAt(m, SlotWord(s, k, j));
    }
  }

  /** The full and empty tests see only the masked bits, which do not wrap. */
  lemma TestsAgree(k: nat, x: int, y: int)
    requires k <= 64
    ensures LooksFull(Wrapping(k), Wrap64(x), Wrap64(y)) <==> LooksFull(Unbounded(k), x, y)
    ensures LooksEmpty(Wrapping(k), Wrap64(x), Wrap64(y)) <==> LooksEmpty(Unbounded(k), x, y)
  {
    WrapDifference(x, y, 1);
    WrapDifference(x, y, 0);
    MaskedWrap(x + 1 - y, k);
    MaskedWrap(x - y, k);
  }

  lemma WrapAppendBuffer(buf: seq<Store>, st: Store)
    ensures WrapBuffer(buf + [st]) == WrapBuffer(buf) + [WrapStore(st)]
  {
  }

  lemma WrapAppendPayload(ps: seq<seq<int>>, p: seq<int>)
    ensures WrapPayloads(ps + [p]) == WrapPayloads(ps) + [WrapWords(p)]
  {
  }

  /** A load through the own buffer reads the wrapped value. */
  lemma WrapLoad(m: seq<int>, buf: seq<Store>, a: nat)
    ensures At(Drained(WrapWords(m), WrapBuffer(buf)), a) == Wrap64(At(Drained(m, buf), a))
  {
    WrapDrained(m, buf);
    WrapAt(Drained(m, buf), a);
  }

  lemma OfferCommutes(k: nat, s: State)
    requires k <= 64 && s.ppc.POffering?
    ensures Step(Wrapping(k), WrapState(s), PAdvance) == WrapState(Step(Unbounded(k), s, PAdvance))
  {
    var t := s.ppc.tail;
    WrapDrained(s.mem, s.pbuf);
    WrapAbsorbs(t, 1);
    WrapAppendBuffer(s.pbuf, Store(TAIL, t + 1));
    WrapPayload(PView(s), t, k);
    WrapAppendPayload(s.offered, Payload(PView(s), t, k));
  }

  lemma ProducerCommutes(k: nat, s: State)
    requires k <= 64
    ensures Step(Wrapping(k), WrapState(s), PAdvance) == WrapState(Step(Unbounded(k), s, PAdvance))
  {
    WrapLoad(s.mem, s.pbuf, TAIL);
    WrapLoad(s.mem, s.pbuf, HEAD);
    WrapLoad(s.mem, s.pbuf, HEAD_CACHE);
    match s.ppc
    case PTest(t) => TestsAgree(k, t, At(PView(s), HEAD_CACHE));
    case PRetest(t) => TestsAgree(k, t, At(PView(s), HEAD_CACHE));
    case PLoadHead(_) =>
      WrapAt(s.mem, HEAD);
      WrapDifference(0, At(s.mem, HEAD), |s.offered|);
    case PSetCache(_, h) => WrapAppendBuffer(s.pbuf, Store(HEAD_CACHE, h));
    case POffering(t) => OfferCommutes(k, s);
    case _ =>
  }

  lemma ReleaseCommutes(k: nat, s: State)
    requires k <= 64 && s.cpc.CReleasing?
    ensures Step(Wrapping(k), WrapState(s), CAdvance) == WrapState(Step(Unbounded(k), s, CAdvance))
  {
    var h := s.cpc.head;
    WrapAbsorbs(h, 1);
    WrapAppendBuffer(s.cbuf, Store(HEAD, h + 1));
    assert WrapReadings(s.consumed + [s.reading]) == WrapReadings(s.consumed) + [WrapReading(s.reading)];
  }

  lemma ConsumerCommutes(k: nat, s: State)
    requires k <= 64
    ensures Step(Wrapping(k), WrapState(s), CAdvance) == WrapState(Step(Unbounded(k), s, CAdvance))
  {
    WrapLoad(s.mem, s.cbuf, TAIL);
    WrapLoad(s.mem, s.cbuf, HEAD);
    WrapLoad(s.mem, s.cbuf, TAIL_CACHE);
    match s.cpc
    case CTest(h) => TestsAgree(k, h, At(CView(s), TAIL_CACHE));
    case CRetest(h) => TestsAgree(k, h, At(CView(s), TAIL_CACHE));
    case CLoadTail(_) =>
      WrapAt(s.mem, TAIL);
      WrapAbsorbs(At(s.mem, TAIL), -|s.consumed|);
    case CSetCache(_, t) => WrapAppendBuffer(s.cbuf, Store(TAIL_CACHE, t));
    case CReleasing(_) => ReleaseCommutes(k, s);
    case _ =>
  }

  lemma PutCommutes(k: nat, s: State, j: nat, v: int)
    requires k <= 64
    ensures Step(Wrapping(k), WrapState(s), PPut(j, v)) == WrapState(Step(Unbounded(k), s, PPut(j, v)))
  {
    if s.ppc.PWindow? && j < SLOT_WORDS {
      WrapSlot(s.ppc.currentTail, k, j);
      WrapAppendBuffer(s.pbuf, Store(SlotWord(s.ppc.currentTail, k, j), v));
    }
  }

  lemma GetCommutes(k: nat, s: State, j: nat)
    requires k <= 64
    ensures Step(Wrapping(k), WrapState(s), CGet(j)) == WrapState(Step(Unbounded(k), s, CGet(j)))
  {
    if s.cpc.CWindow? && j < SLOT_WORDS {
      var a := SlotWord(s.cpc.currentHead, k, j);
      WrapSlot(s.cpc.currentHead, k, j);
      WrapLoad(s.mem, s.cbuf, a);
      var v := At(CView(s), a);
      assert WrapReading(s.reading[j := v]) == WrapReading(s.reading)[j := Wrap64(v)];
    }
  }

  lemma OfferCallCommutes(k: nat, s: State)
    requires k <= 64
    ensures Step(Wrapping(k), WrapState(s), POffer) == WrapState(Step(Unbounded(k), s, POffer))
  {
    WrapLoad(s.mem, s.pbuf, TAIL);
  }

  lemma ReleaseCallCommutes(k: nat, s: State)
    requires k <= 64
    ensures Step(Wrapping(k), WrapState(s), CRelease) == WrapState(Step(Unbounded(k), s, CRelease))
  {
    WrapLoad(s.mem, s.cbuf, HEAD);
  }

  lemma MemoryCommutes(k: nat, s: State, a: Action)
    requires k <= 64 && (a.PDrain? || a.CDrain? || a.PSync? || a.CSync?)
    ensures Step(Wrapping(k), WrapState(s), a) == WrapState(Step(Unbounded(k), s, a))
  {
    match a
    case PDrain =>
      if s.pbuf != [] {
        WrapWrite(s.mem, s.pbuf[0]);
        assert WrapBuffer(s.pbuf)[1..] == WrapBuffer(s.pbuf[1..]);
      }
    case CDrain =>
      if s.cbuf != [] {
        WrapWrite(s.mem, s.cbuf[0]);
        assert WrapBuffer(s.cbuf)[1..] == WrapBuffer(s.cbuf[1..]);
      }
    case PSync(v) => WrapWrite(s.mem, Store(SYNC, v));
    case CSync(v) => WrapWrite(s.mem, Store(SYNC, v));
  }

  lemma StepCommutes(k: nat, s: State, a: Action)
    requires k <= 64
    ensures Step(Wrapping(k), WrapState(s), a) == WrapState(Step(Unbounded(k), s, a))
  {
    match a
    case PAdvance => ProducerCommutes(k, s);
    case CAdvance => ConsumerCommutes(k, s);
    case PPut(j, v) => PutCommutes(k, s, j, v);
    case CGet(j) => GetCommutes(k, s, j);
    case POffer => OfferCallCommutes(k, s);
    case CRelease => ReleaseCallCommutes(k, s);
    case _ => MemoryCommutes(k, s, a);
  }

  /** For every capacity up to 2^64 the wrapping ring simulates the unbounded ring exactly. */
  lemma {:induction false} WrappingRunCommutes(k: nat, s: State, run: seq<Action>)
    requires k <= 64
    ensures Exec(Wrapping(k), WrapState(s), run) == WrapState(Exec(Unbounded(k), s, run))
    decreases |run|
  {
    if run != [] {
      StepCommutes(k, s, run[0]);
      WrappingRunCommutes(k, Step(Unbounded(k), s, run[0]), run[1..]);
    }
  }

  /** The wrapping run asks for the same words. */
  lemma {:induction false} WrappingAsked(k: nat, s: State, run: seq<Action>, t: nat, j: nat)
    requires k <= 64
    ensures Asked(Wrapping(k), WrapState(s), run, t, j) <==> Asked(Unbounded(k), s, run, t, j)
    decreases |run|
  {
    if run != [] {
      WrappingRunCommutes(k, s, run[..|run| - 1]);
      WrappingAsked(k, s, run[..|run| - 1], t, j);
    }
  }

  /** First-in first-out delivery for Java's wrapping cursors. */
  lemma WrappingFifoDelivery(k: nat, s0: State, run: seq<Action>)
    requires k <= 64 && Start(k, s0)
    ensures var s := Exec(Wrapping(k), WrapState(s0), run);
            && |s.consumed| <= |s.offered|
            && (forall i: nat, j: nat :: |s0.consumed| <= i < |s.consumed| ==>
                  (j in s.consumed[i] <==> Asked(Wrapping(k), WrapState(s0), run, i, j)))
            && (forall i: nat, j: nat :: i < |s.consumed| && j in s.consumed[i] ==>
                  j < |s.offered[i]| && s.consumed[i][j] == s.offered[i][j])
  {
    FifoDelivery(k, s0, run);
    WrappingRunCommutes(k, s0, run);
    hide Asked, Start;
    var u, s := Exec(Unbounded(k), s0, run), Exec(Wrapping(k), WrapState(s0), run);
    forall i: nat, j: nat | |s0.consumed| <= i < |s.consumed|
      ensures j in s.consumed[i] <==> Asked(Wrapping(k), WrapState(s0), run, i, j)
    {
      WrappingAsked(k, s0, run, i, j);
      assert j in u.consumed[i] <==> Asked(Unbounded(k), s0, run, i, j);
    }
    forall i: nat, j: nat | i < |s.consumed| && j in s.consumed[i]
      ensures j < |s.offered[i]| && s.consumed[i][j] == s.offered[i][j]
    {
      assert j in u.consumed[i] && u.consumed[i][j] == u.offered[i][j];
    }
  }

  lemma WrapSize(k: nat, tail: int, head: int)
    requires k <= 64
    ensures SizeAnswer(Wrapping(k), Wrap64(tail), Wrap64(head)) == SizeAnswer(Unbounded(k), tail, head)
  {
    WrapDifference(tail, head, 0);
    MaskedWrap(tail - head, k);
  }

  /** `size` and `isEmpty` of the producer on wrapping cursors: the same exact answers. */
  lemma WrappingProducerSize(k: nat, s: State, run: seq<Action>)
    requires k <= 64 && Inv(k, s) && LeavesProducer(run)
    ensures var c, e := Wrapping(k), Exec(Unbounded(k), s, run);
            var w, v := WrapState(s), Exec(Wrapping(k), WrapState(s), run);
            && SizeAnswer(c, At(PView(w), TAIL), At(PView(v), HEAD)) == Held(e)
            && SizeAnswer(c, At(PView(v), TAIL), At(PView(w), HEAD)) == Held(s)
  {
    var e := Exec(Unbounded(k), s, run);
    WrappingRunCommutes(k, s, run);
    ProducerSizeExact(k, s, run);
    ViewsWrap(s);
    ViewsWrap(e);
    WrapSize(k, At(PView(s), TAIL), At(PView(e), HEAD));
    WrapSize(k, At(PView(e), TAIL), At(PView(s), HEAD));
  }

  lemma WrappingConsumerSize(k: nat, s: State, run: seq<Action>)
    requires k <= 64 && Inv(k, s) && LeavesConsumer(run)
    ensures var c, e := Wrapping(k), Exec(Unbounded(k), s, run);
            var w, v := WrapState(s), Exec(Wrapping(k), WrapState(s), run);
            && SizeAnswer(c, At(CView(w), TAIL), At(CView(v), HEAD)) == Visible(s)
            && SizeAnswer(c, At(CView(v), TAIL), At(CView(w), HEAD)) == Visible(e)
  {
    var e := Exec(Unbounded(k), s, run);
    WrappingRunCommutes(k, s, run);
    ConsumerSizeExact(k, s, run);
    ViewsWrap(s);
    ViewsWrap(e);
    WrapSize(k, At(CView(s), TAIL), At(CView(e), HEAD));
    WrapSize(k, At(CView(e), TAIL), At(CView(s), HEAD));
  }

  lemma ViewsWrap(s: State)
    ensures forall a: nat :: At(PView(WrapState(s)), a) == Wrap64(At(PView(s), a))
    ensures forall a: nat :: At(CView(WrapState(s)), a) == Wrap64(At(CView(s), a))
  {
    WrapDrained(s.mem, s.pbuf);
    WrapDrained(s.mem, s.cbuf);
  }
}
