/**
 The rigs as deployed: cursors that wrap like `long`, and a sync word of eight bytes that each
 side compares and swaps in the way of its own language.  Source and sink run the same
 programs as in `Rig`; every step is the image of a step there, so every result about whole
 runs carries over, for each of the four pairs of languages.
 */
module DeployedRig {
  import opened Words
  import opened Layout
  import opened StoreBuffer
  import opened Ring
  import opened RingInvariant
  import opened RingTheorems
  import opened WrapRefinement
  import opened Rig
  import opened RigTheorems
  import opened RigFairness
  import opened SyncCell

  datatype Sides = Sides(source: Language, sink: Language)

  /** The messages and the state numbers are `int`s, the capacity a power of two within a word. */
  predicate Fits(p: Params) {
    p.k <= 64 && 1 <= p.reps < 0x8000_0000 && 3 * p.rounds < 0x8000_0000
  }

  // ---------------------------------------------------------- the sync word

  /** A word of the file as bytes in memory, and back. */
  function CellOf(w: int): Cell {
    Encode(w % TWO_64, 8)
  }

  function WordOf(c: Cell): int {
    Wrap64(Value(c))
  }

  function CasOp(language: Language, expected: StateNumber, desired: StateNumber): SyncOp {
    match language
    case Cpp => CppCas(expected, desired)
    case Java => JavaCas(expected, desired)
  }

  /** The word after a compare-and-swap, and its answer. */
  function Cas(language: Language, w: int, expected: StateNumber, desired: StateNumber): (int, bool) {
    var (c, won) := Apply(CellOf(w), CasOp(language, expected, desired));
    (WordOf(c), won)
  }

  lemma StateNumberCell(v: StateNumber)
    ensures UpperZero(CellOf(v)) && Value(CellOf(v)) == v && WordOf(CellOf(v)) == v
  {
    EncodeStateNumber(v);
    ZeroUpperValue(Encode(v, 4), [0, 0, 0, 0]);
  }

  /** On a state number, either language's compare-and-swap is that of an integer. */
  lemma CasOnStateNumber(language: Language, w: StateNumber, expected: StateNumber, desired: StateNumber)
    ensures Cas(language, w, expected, desired) == if w == expected then (desired, true) else (w, false)
  {
    StateNumberCell(w);
    StateNumberCell(desired);
    StepAgrees(CellOf(w), CasOp(language, expected, desired));
  }

  // ------------------------------------------------------------- the programs

  /** Rounds begun and not yet ended are among those to run. */
  predicate InRounds(p: Params, s: RigState) {
    && s.source.r + (if s.source.PWaitStart? then 0 else 1) <= p.rounds
    && s.sink.r + (if s.sink.CWaitStart? then 0 else 1) <= p.rounds
  }

  function SyncWritten(s: RigState, w: int): RigState {
    s.(ring := s.ring.(mem := Write(s.ring.mem, Store(SYNC, w))))
  }

  /** `waitTillNextState` of the source, one attempt. */
  function SourceCas(language: Language, p: Params, s: RigState): RigState
    requires Fits(p) && InRounds(p, s) && !s.source.PSend?
  {
    match s.source
    case PWaitStart(r) =>
      if r < p.rounds && s.ring.pbuf == [] then
        var (w, won) := Cas(language, SyncWord(s), 3 * r, 3 * r + 1);
        if won then SyncWritten(s, w).(source := PSend(r, p.reps, false)) else SyncWritten(s, w)
      else s
    case PWaitEnd(r) =>
      if s.ring.pbuf == [] then
        var (w, won) := Cas(language, SyncWord(s), 3 * r + 2, 3 * r + 3);
        if won then SyncWritten(s, w).(source := PWaitStart(r + 1)) else SyncWritten(s, w)
      else s
  }

  function SinkCas(language: Language, p: Params, s: RigState): RigState
    requires Fits(p) && InRounds(p, s) && !s.sink.CReceive?
  {
    match s.sink
    case CWaitStart(r) =>
      if r < p.rounds && s.ring.cbuf == [] then
        var (w, won) := Cas(language, SyncWord(s), 3 * r + 1, 3 * r + 1);
        if won then SyncWritten(s, w).(sink := CReceive(r, p.reps, p.reps, None)) else SyncWritten(s, w)
      else s
    case CWaitEnd(r) =>
      if s.ring.cbuf == [] then
        var (w, won) := Cas(language, SyncWord(s), 3 * r + 1, 3 * r + 2);
        if won then SyncWritten(s, w).(sink := CWaitStart(r + 1)) else SyncWritten(s, w)
      else s
  }

  function DeployedStep(d: Sides, p: Params, s: RigState, t: Thread): (s': RigState)
    requires Fits(p) && InRounds(p, s)
    ensures InRounds(p, s')
  {
    match t
    case Producer => if s.source.PSend? then SourceProgram(Wrapping(p.k), p, s) else SourceCas(d.source, p, s)
    case Consumer => if s.sink.CReceive? then SinkProgram(Wrapping(p.k), p, s) else SinkCas(d.sink, p, s)
    case ProducerBuffer => s.(ring := Step(Wrapping(p.k), s.ring, PDrain))
    case ConsumerBuffer => s.(ring := Step(Wrapping(p.k), s.ring, CDrain))
  }

  function DeployedExec(d: Sides, p: Params, s: RigState, run: seq<Thread>): RigState
    requires Fits(p) && InRounds(p, s)
    decreases |run|
  {
    if run == [] then s else DeployedExec(d, p, DeployedStep(d, p, s, run[0]), run[1..])
  }

  // -------------------------------------------------------------- lock step

  function WrapRig(s: RigState): RigState {
    s.(ring := WrapState(s.ring))
  }

  lemma SmallWrap(v: int)
    requires 0 <= v < 0x8000_0000
    ensures Wrap64(v) == v
  {
  }

  lemma SendCommutes(p: Params, s: RigState)
    requires Fits(p) && s.source.PSend?
    ensures SourceProgram(Wrapping(p.k), p, WrapRig(s)) == WrapRig(SourceStep(p, s))
  {
    hide Step, WrapWords, WrapBuffer, WrapPayloads, WrapReadings;
    var a := if !s.ring.ppc.PWindow? then PAdvance else if s.source.put then POffer else PPut(0, s.source.i);
    StepCommutes(p.k, s.ring, a);
  }

  lemma ReceiveCommutes(p: Params, s: RigState)
    requires Fits(p) && RigInv(p, s) && s.sink.CReceive?
    ensures SinkProgram(Wrapping(p.k), p, WrapRig(s)) == WrapRig(SinkStep(p, s))
  {
    hide Step, Inv, WrapWords, WrapBuffer, WrapPayloads, WrapReadings;
    var a := if !s.ring.cpc.CWindow? then CAdvance else if s.sink.got.None? then CGet(0) else CRelease;
    StepCommutes(p.k, s.ring, a);
    SmallWrap(s.sink.i);
    if s.ring.cpc.CWindow? {
      LoadedWordIsExpected(p, s);
    }
  }

  lemma SyncCommutes(s: State, v: StateNumber)
    ensures WrapState(s.(mem := Write(s.mem, Store(SYNC, v))))
         == WrapState(s).(mem := Write(WrapState(s).mem, Store(SYNC, v)))
  {
    SmallWrap(v);
    WrapWrite(s.mem, Store(SYNC, v));
  }

  lemma SyncUnwritten(s: RigState)
    ensures SyncWritten(s, SyncWord(s)) == s
  {
  }

  lemma SourceCasCommutes(language: Language, p: Params, s: RigState)
    requires Fits(p) && Handshake(p, s) && InRounds(p, s) && !s.source.PSend?
    ensures SourceCas(language, p, WrapRig(s)) == WrapRig(SourceStep(p, s))
  {
    hide Cas, Write, WrapState, At;
    var w := SyncWord(s);
    WrappedSync(s);
    SmallWrap(w);
    SyncUnwritten(WrapRig(s));
    var r := s.source.r;
    if s.source.PWaitStart? {
      if r < p.rounds {
        CasOnStateNumber(language, w, 3 * r, 3 * r + 1);
        SyncCommutes(s.ring, 3 * r + 1);
      }
    } else {
      CasOnStateNumber(language, w, 3 * r + 2, 3 * r + 3);
      SyncCommutes(s.ring, 3 * r + 3);
    }
  }

  lemma SinkCasCommutes(language: Language, p: Params, s: RigState)
    requires Fits(p) && Handshake(p, s) && InRounds(p, s) && !s.sink.CReceive?
    ensures SinkCas(language, p, WrapRig(s)) == WrapRig(SinkStep(p, s))
  {
    hide Cas, Write, WrapState, At;
    var w := SyncWord(s);
    WrappedSync(s);
    SmallWrap(w);
    SyncUnwritten(WrapRig(s));
    var r := s.sink.r;
    if s.sink.CWaitStart? {
      if r < p.rounds {
        CasOnStateNumber(language, w, 3 * r + 1, 3 * r + 1);
        SyncCommutes(s.ring, 3 * r + 1);
      }
    } else {
      CasOnStateNumber(language, w, 3 * r + 1, 3 * r + 2);
      SyncCommutes(s.ring, 3 * r + 2);
    }
  }

  lemma WrappedSync(s: RigState)
    ensures SyncWord(WrapRig(s)) == Wrap64(SyncWord(s))
    ensures WrapRig(s).ring.pbuf == [] <==> s.ring.pbuf == []
    ensures WrapRig(s).ring.cbuf == [] <==> s.ring.cbuf == []
  {
    WrapAt(s.ring.mem, SYNC);
  }

  lemma HandshakeInRounds(p: Params, s: RigState)
    requires Handshake(p, s)
    ensures InRounds(p, s) && InRounds(p, WrapRig(s))
  {
  }

  /** Every step of the deployed rig is a step of the ideal one. */
  lemma DeployedStepCommutes(d: Sides, p: Params, s: RigState, t: Thread)
    requires Fits(p) && RigInv(p, s)
    ensures InRounds(p, WrapRig(s)) && DeployedStep(d, p, WrapRig(s), t) == WrapRig(RigStep(p, s, t))
  {
    hide Inv, SourceProgram, SinkProgram, SourceCas, SinkCas, Step, WrapState;
    HandshakeInRounds(p, s);
    match t
    case Producer => if s.source.PSend? { SendCommutes(p, s); } else { SourceCasCommutes(d.source, p, s); }
    case Consumer => if s.sink.CReceive? { ReceiveCommutes(p, s); } else { SinkCasCommutes(d.sink, p, s); }
    case ProducerBuffer => StepCommutes(p.k, s.ring, PDrain);
    case ConsumerBuffer => StepCommutes(p.k, s.ring, CDrain);
  }

  /** On runs of any length the deployed rig is the image of the ideal one. */
  lemma {:induction false} DeployedRunCommutes(d: Sides, p: Params, s: RigState, run: seq<Thread>)
    requires Fits(p) && RigInv(p, s)
    ensures InRounds(p, WrapRig(s)) && DeployedExec(d, p, WrapRig(s), run) == WrapRig(RigExec(p, s, run))
    decreases |run|
  {
    hide RigInv, DeployedStep, RigStep, WrapRig;
    if run == [] {
      DeployedStepCommutes(d, p, s, Producer);
    } else {
      DeployedStepCommutes(d, p, s, run[0]);
      RigStepKeepsInv(p, s, run[0]);
      DeployedRunCommutes(d, p, RigStep(p, s, run[0]), run[1..]);
    }
  }

  // ----------------------------------------------------------- what it promises

  lemma StartInRounds(p: Params, s: RigState)
    requires RigStart(p, s)
    ensures InRounds(p, WrapRig(s))
  {
  }

  /** Wrapping changes no message. */
  lemma WrappedConsumed(ring: State, m: nat, i: int)
    requires m < |ring.consumed| && ring.consumed[m] == map[0 := i] && 0 <= i < 0x8000_0000
    ensures WrapState(ring).consumed[m] == map[0 := i]
  {
    SmallWrap(i);
  }

  lemma DeliveredWraps(p: Params, ring: State)
    requires Fits(p) && AllDelivered(p, ring)
    ensures AllDelivered(p, WrapState(ring))
  {
    WrapAt(ring.mem, HEAD);
    WrapAt(ring.mem, TAIL);
    forall m: nat | m < p.rounds * p.reps
      ensures WrapState(ring).consumed[p.base + m] == map[0 := p.reps - m % p.reps]
    {
      WrappedConsumed(ring, p.base + m, p.reps - m % p.reps);
    }
  }

  /** Every fair run of source and sink, each in either language, on wrapping cursors and a byte
      sync word, comes to deliver every message of every round in order. */
  lemma FairDeployedRunDelivers(d: Sides, p: Params, s0: RigState, run: nat -> Thread) returns (n: nat)
    requires p.k >= 1 && Fits(p) && RigStart(p, s0) && Fair(run)
    ensures InRounds(p, WrapRig(s0))
    ensures forall m: nat :: m >= n ==> AllDelivered(p, DeployedExec(d, p, WrapRig(s0), Segment(run, 0, m)).ring)
  {
    hide AllDelivered, WrapState;
    StartInRounds(p, s0);
    RigStartSatisfiesInv(p, s0);
    n := FairRunDelivers(p, s0, run);
    forall m: nat | m >= n
      ensures AllDelivered(p, DeployedExec(d, p, WrapRig(s0), Segment(run, 0, m)).ring)
    {
      DeployedRunCommutes(d, p, s0, Segment(run, 0, m));
      DeliveredWraps(p, RigExec(p, s0, Segment(run, 0, m)).ring);
    }
  }

  /** In every reachable state no message was out of order, and at 3r+2 the sink has received
      exactly reps, ..., 1 in round r and the two cursor words are equal. */
  lemma DeployedRoundsNeverMix(d: Sides, p: Params, s0: RigState, run: seq<Thread>, r: nat)
    requires Fits(p) && RigStart(p, s0)
    ensures InRounds(p, WrapRig(s0))
    ensures var s := DeployedExec(d, p, WrapRig(s0), run);
            && s.errors == 0 && s.javaErrors == 0
            && (SyncWord(s) == 3 * r + 2 ==> RoundReceived(p, s.ring, r))
  {
    StartInRounds(p, s0);
    RigStartSatisfiesInv(p, s0);
    DeployedRunCommutes(d, p, s0, run);
    NoOutOfOrderErrors(p, s0, run);
    var s := RigExec(p, s0, run);
    RigReachable(p, s0, run);
    WrappedSync(s);
    SyncInRange(p, s);
    SmallWrap(SyncWord(s));
    if SyncWord(s) == 3 * r + 2 {
      RoundEnds(p, s, r);
      ReceivedWraps(p, s.ring, r);
    }
  }

  ghost predicate RoundReceived(p: Params, ring: State, r: nat) {
    var end := p.base + Messages(r + 1, p.reps);
    && At(ring.mem, HEAD) == At(ring.mem, TAIL) && |ring.consumed| == |ring.offered| == end
    && (forall i :: 1 <= i <= p.reps ==> 0 <= end - i < |ring.consumed| && ring.consumed[end - i] == map[0 := i])
  }

  lemma ReceivedWraps(p: Params, ring: State, r: nat)
    requires Fits(p) && RoundComplete(p, ring, r)
    ensures RoundReceived(p, WrapState(ring), r)
  {
    WrapAt(ring.mem, HEAD);
    WrapAt(ring.mem, TAIL);
    MessagesNext(r, p.reps);
    var end := p.base + Messages(r + 1, p.reps);
    forall i | 1 <= i <= p.reps ensures 0 <= end - i && WrapState(ring).consumed[end - i] == map[0 := i] {
      assert ring.consumed[end - i] == map[0 := i];
      WrappedConsumed(ring, end - i, i);
    }
  }
}
