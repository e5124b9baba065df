/**
 The shared-memory ring as a transition system.

 One producer and one consumer process share the file `mem`.  Each has a program
 counter inside `preOffer`/`offer` or `poll`/`releaseCacheLine` and a FIFO store buffer.
 Every load, every store and every drain is one step, and the two processes interleave
 freely.  A step that is not possible in a state leaves it unchanged.

 `offered`, `consumed`, `reading`, `heldAtRead` and `visibleAtRead` are history: no step
 decides on them.  `offered[s]` is the 64-byte payload published under sequence number s,
 `consumed[s]` the words the consumer loaded before it released s.

 `Config.wrapping` selects Java's `long` arithmetic; without it cursors are unbounded.
 */
module Ring {
  import opened Words
  import opened Layout
  import opened StoreBuffer

  datatype Config = Config(k: nat, wrapping: bool)

  datatype ProducerPc =
    | PIdle
    | PTest(currentTail: int)
    | PLoadHead(currentTail: int)
    | PSetCache(currentTail: int, head: int)
    | PRetest(currentTail: int)
    | PWindow(currentTail: int)
    | POffering(tail: int)

  datatype ConsumerPc =
    | CIdle
    | CTest(currentHead: int)
    | CLoadTail(currentHead: int)
    | CSetCache(currentHead: int, tail: int)
    | CRetest(currentHead: int)
    | CWindow(currentHead: int)
    | CReleasing(head: int)

  datatype State = State(
    mem: seq<int>,
    pbuf: seq<Store>,
    cbuf: seq<Store>,
    ppc: ProducerPc,
    cpc: ConsumerPc,
    offered: seq<seq<int>>,
    consumed: seq<map<nat, int>>,
    reading: map<nat, int>,
    heldAtRead: int,
    visibleAtRead: int)

  /** `PAdvance` and `CAdvance` are the next instruction inside a queue call (or the first
      of `preOffer`/`poll`); `PPut` and `CGet` are payload accesses of the client between
      the calls; `PSync` and `CSync` are successful locked updates of the sync word. */
  datatype Action =
    | PAdvance | PPut(j: nat, value: int) | POffer | PDrain | PSync(value: int)
    | CAdvance | CGet(j: nat) | CRelease | CDrain | CSync(value: int)

  function Norm(c: Config, x: int): int {
    if c.wrapping then Wrap64(x) else x
  }

  function PView(s: State): (m: seq<int>)
    ensures |m| == |s.mem|
  {
    Drained(s.mem, s.pbuf)
  }

  function CView(s: State): (m: seq<int>)
    ensures |m| == |s.mem|
  {
    Drained(s.mem, s.cbuf)
  }

  function Payload(m: seq<int>, s: int, k: nat): (p: seq<int>)
    ensures |p| == SLOT_WORDS
  {
    seq(SLOT_WORDS, j requires 0 <= j < SLOT_WORDS => At(m, SlotWord(s, k, j)))
  }

  /** `((currentTail + 1 - headCache) & mask) == 0`. */
  predicate LooksFull(c: Config, currentTail: int, headCache: int) {
    Masked(Norm(c, currentTail + 1 - headCache), c.k) == 0
  }

  /** `((currentHead - tailCache) & mask) == 0`. */
  predicate LooksEmpty(c: Config, currentHead: int, tailCache: int) {
    Masked(Norm(c, currentHead - tailCache), c.k) == 0
  }

  /** `(getTail() - getHead()) & mask`; `isEmpty` compares it with zero. */
  function SizeAnswer(c: Config, tail: int, head: int): nat {
    Masked(Norm(c, tail - head), c.k)
  }

  function ProducerAdvance(c: Config, s: State): State {
    match s.ppc
    case PIdle => s.(ppc := PTest(At(PView(s), TAIL)))
    case PTest(t) =>
      s.(ppc := if LooksFull(c, t, At(PView(s), HEAD_CACHE)) then PLoadHead(t) else PWindow(t))
    case PLoadHead(t) =>
      s.(ppc := PSetCache(t, At(PView(s), HEAD)),
         heldAtRead := Norm(c, |s.offered| - At(s.mem, HEAD)))
    case PSetCache(t, h) =>
      s.(ppc := PRetest(t), pbuf := s.pbuf + [Store(HEAD_CACHE, h)])
    case PRetest(t) =>
      s.(ppc := if LooksFull(c, t, At(PView(s), HEAD_CACHE)) then PIdle else PWindow(t))
    case PWindow(_) => s
    case POffering(t) =>
      s.(ppc := PIdle,
         pbuf := s.pbuf + [Store(TAIL, Norm(c, t + 1))],
         offered := s.offered + [Payload(PView(s), t, c.k)])
  }

  function ConsumerAdvance(c: Config, s: State): State {
    match s.cpc
    case CIdle => s.(cpc := CTest(At(CView(s), HEAD)))
    case CTest(h) =>
      s.(cpc := if LooksEmpty(c, h, At(CView(s), TAIL_CACHE)) then CLoadTail(h) else CWindow(h))
    case CLoadTail(h) =>
      s.(cpc := CSetCache(h, At(CView(s), TAIL)),
         visibleAtRead := Norm(c, At(s.mem, TAIL) - |s.consumed|))
    case CSetCache(h, t) =>
      s.(cpc := CRetest(h), cbuf := s.cbuf + [Store(TAIL_CACHE, t)])
    case CRetest(h) =>
      s.(cpc := if LooksEmpty(c, h, At(CView(s), TAIL_CACHE)) then CIdle else CWindow(h))
    case CWindow(_) => s
    case CReleasing(h) =>
      s.(cpc := CIdle,
         cbuf := s.cbuf + [Store(HEAD, Norm(c, h + 1))],
         consumed := s.consumed + [s.reading],
         reading := map[])
  }

  function Step(c: Config, s: State, a: Action): State {
    match a
    case PAdvance => ProducerAdvance(c, s)
    case PPut(j, v) =>
      if s.ppc.PWindow? && j < SLOT_WORDS
      then s.(pbuf := s.pbuf + [Store(SlotWord(s.ppc.currentTail, c.k, j), Norm(c, v))])
      else s
    case POffer =>
      if s.ppc.PWindow? then s.(ppc := POffering(At(PView(s), TAIL))) else s
    case PDrain =>
      if s.pbuf != [] then s.(mem := Write(s.mem, s.pbuf[0]), pbuf := s.pbuf[1..]) else s
    case PSync(v) =>
      if s.pbuf == [] then s.(mem := Write(s.mem, Store(SYNC, Norm(c, v)))) else s
    case CAdvance => ConsumerAdvance(c, s)
    case CGet(j) =>
      if s.cpc.CWindow? && j < SLOT_WORDS
      then s.(reading := s.reading[j := At(CView(s), SlotWord(s.cpc.currentHead, c.k, j))])
      else s
    case CRelease =>
      if s.cpc.CWindow? then s.(cpc := CReleasing(At(CView(s), HEAD))) else s
    case CDrain =>
      if s.cbuf != [] then s.(mem := Write(s.mem, s.cbuf[0]), cbuf := s.cbuf[1..]) else s
    case CSync(v) =>
      if s.cbuf == [] then s.(mem := Write(s.mem, Store(SYNC, Norm(c, v)))) else s
  }

  function Exec(c: Config, s: State, run: seq<Action>): State
    decreases |run|
  {
    if run == [] then s else Exec(c, Step(c, s, run[0]), run[1..])
  }

  // ---------------------------------------------------------------- invariant

  predicate ProducerAddress(a: nat) {
    a == TAIL || a == HEAD_CACHE || a >= ARRAY_BASE
  }

  predicate ConsumerAddress(a: nat) {
    a == HEAD || a == TAIL_CACHE
  }

  /** What the file must satisfy from the producer's side when `consumedCount` elements have
      been released in program order and `head` is the visible head. */
  ghost predicate ProducerSound(m: seq<int>, k: nat, head: int, consumedCount: nat, offered: seq<seq<int>>) {
    && 0 <= At(m, HEAD_CACHE) <= head
    && consumedCount <= At(m, TAIL) <= |offered|
    && At(m, TAIL) <= At(m, HEAD_CACHE) + Pow2(k) - 1
    && (forall s: nat :: consumedCount <= s < At(m, TAIL) ==> Payload(m, s, k) == offered[s])
  }

  /** The store that drains next belongs to the producer, never lowers the tail, and, if it
      is a payload store, goes to the slot of the first unpublished sequence number. */
  ghost predicate ProducerStore(m: seq<int>, k: nat, st: Store) {
    && ProducerAddress(st.addr)
    && (st.addr == TAIL ==> At(m, TAIL) <= st.value)
    && (st.addr >= ARRAY_BASE ==> exists j: nat :: j < SLOT_WORDS && st.addr == SlotWord(At(m, TAIL), k, j))
  }

  /** `ProducerSound` now and after every further drain of the producer's buffer. */
  ghost predicate ProducerChain(m: seq<int>, buf: seq<Store>, k: nat, head: int, consumedCount: nat,
                                offered: seq<seq<int>>)
    decreases |buf|
  {
    && ProducerSound(m, k, head, consumedCount, offered)
    && (buf != [] ==>
          && ProducerStore(m, k, buf[0])
          && ProducerChain(Write(m, buf[0]), buf[1..], k, head, consumedCount, offered))
  }

  ghost predicate ConsumerSound(m: seq<int>, tail: int, consumedCount: nat) {
    0 <= At(m, HEAD) <= consumedCount && At(m, HEAD) <= At(m, TAIL_CACHE) <= tail
  }

  ghost predicate ConsumerStore(m: seq<int>, st: Store) {
    ConsumerAddress(st.addr) && (st.addr == HEAD ==> At(m, HEAD) <= st.value)
  }

  ghost predicate ConsumerChain(m: seq<int>, buf: seq<Store>, tail: int, consumedCount: nat)
    decreases |buf|
  {
    && ConsumerSound(m, tail, consumedCount)
    && (buf != [] ==>
          && ConsumerStore(m, buf[0])
          && ConsumerChain(Write(m, buf[0]), buf[1..], tail, consumedCount))
  }

  ghost predicate ProducerPcSound(s: State, k: nat) {
    var v := PView(s);
    match s.ppc
    case PIdle => true
    case PTest(t) => t == |s.offered|
    case PLoadHead(t) => t == |s.offered|
    case PSetCache(t, h) =>
      t == |s.offered| && At(v, HEAD_CACHE) <= h <= At(s.mem, HEAD) && s.heldAtRead == t - h
    case PRetest(t) => t == |s.offered| && s.heldAtRead == t - At(v, HEAD_CACHE)
    case PWindow(t) => t == |s.offered| && t + 1 <= At(v, HEAD_CACHE) + Pow2(k) - 1
    case POffering(t) => t == |s.offered| && t + 1 <= At(v, HEAD_CACHE) + Pow2(k) - 1
  }

  ghost predicate ConsumerPcSound(s: State) {
    var v := CView(s);
    match s.cpc
    case CIdle => true
    case CTest(h) => h == |s.consumed|
    case CLoadTail(h) => h == |s.consumed|
    case CSetCache(h, t) =>
      h == |s.consumed| && At(v, TAIL_CACHE) <= t <= At(s.mem, TAIL) && s.visibleAtRead == t - h
    case CRetest(h) => h == |s.consumed| && s.visibleAtRead == At(v, TAIL_CACHE) - h
    case CWindow(h) => h == |s.consumed| < At(v, TAIL_CACHE)
    case CReleasing(h) => h == |s.consumed| < At(v, TAIL_CACHE)
  }

  /** Words the consumer has loaded are words of the payload with that number. */
  ghost predicate Delivered(s: State) {
    && |s.consumed| <= |s.offered|
    && (forall i: nat :: i < |s.offered| ==> |s.offered[i]| == SLOT_WORDS)
    && (forall i: nat, j: nat :: i < |s.consumed| && j in s.consumed[i] ==>
          j < SLOT_WORDS && s.consumed[i][j] == s.offered[i][j])
    && (s.reading != map[] ==> |s.consumed| < |s.offered|)
    && (forall j: nat :: j in s.reading ==> j < SLOT_WORDS && s.reading[j] == s.offered[|s.consumed|][j])
  }

  ghost predicate Inv(k: nat, s: State) {
    && |s.mem| == FileWords(k)
    && ProducerChain(s.mem, s.pbuf, k, At(s.mem, HEAD), |s.consumed|, s.offered)
    && ConsumerChain(s.mem, s.cbuf, At(s.mem, TAIL), |s.consumed|)
    && At(PView(s), TAIL) == |s.offered|
    && At(CView(s), HEAD) == |s.consumed|
    && ProducerPcSound(s, k)
    && ConsumerPcSound(s)
    && Delivered(s)
  }
}
