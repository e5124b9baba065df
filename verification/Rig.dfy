/**
 The two test rigs: a source and a sink process that run `rounds` rounds of `reps`
 messages through the ring, kept in step by a compare-and-swap word.

 Each thread is a small program over the ring's micro-steps.  A locked compare-and-swap
 waits until the own store buffer has drained and then acts on the file.  A failed one,
 like a `preOffer` that answers false or a `poll` that answers null, is retried.
 */
module Rig {
  import opened Words
  import opened Layout
  import opened StoreBuffer
  import opened Ring
  import opened RingInvariant
  import opened RingTheorems

  datatype Option<T> = None | Some(value: T)

  /** Ring exponent, messages per round (`REPETITIONS`), number of rounds, and the sequence
      number of the first message. */
  datatype Params = Params(k: nat, reps: nat, rounds: nat, base: nat)

  datatype Source =
    | PWaitStart(r: nat)
    | PSend(r: nat, i: nat, put: bool)
    | PWaitEnd(r: nat)

  datatype Sink =
    | CWaitStart(r: nat)
    | CReceive(r: nat, i: nat, expected: int, got: Option<int>)
    | CWaitEnd(r: nat)

  /** `full` is `f` and `empty` is `queueEmpty`, summed over rounds.  `errors` counts by the
      C++ rule (compare with the countdown), `javaErrors` by the Java rule (compare with
      `expectedValue`, which follows the last value received). */
  datatype RigState = RigState(ring: State, source: Source, sink: Sink,
                         full: nat, empty: nat, errors: nat, javaErrors: nat)

  datatype Thread = Producer | Consumer | ProducerBuffer | ConsumerBuffer

  function SyncWord(s: RigState): int {
    At(s.ring.mem, SYNC)
  }

  function RingStep(p: Params, s: RigState, a: Action): State {
    Step(Unbounded(p.k), s.ring, a)
  }

  /** One instruction of `producerRun`, over either kind of cursors. */
  function SourceProgram(c: Config, p: Params, s: RigState): RigState {
    match s.source
    case PWaitStart(r) =>
      if r < p.rounds && s.ring.pbuf == [] && SyncWord(s) == 3 * r
      then s.(ring := Step(c, s.ring, PSync(3 * r + 1)), source := PSend(r, p.reps, false))
      else s
    case PSend(r, i, put) =>
      if s.ring.ppc.PWindow? then
        if put then s.(ring := Step(c, s.ring, POffer))
        else s.(ring := Step(c, s.ring, PPut(0, i)), source := PSend(r, i, true))
      else
        var ring' := Step(c, s.ring, PAdvance);
        if s.ring.ppc.POffering? then
          s.(ring := ring', source := if i <= 1 then PWaitEnd(r) else PSend(r, i - 1, false))
        else
          s.(ring := ring', full := if s.ring.ppc.PRetest? && ring'.ppc.PIdle? then s.full + 1 else s.full)
    case PWaitEnd(r) =>
      if s.ring.pbuf == [] && SyncWord(s) == 3 * r + 2
      then s.(ring := Step(c, s.ring, PSync(3 * r + 3)), source := PWaitStart(r + 1))
      else s
  }

  /** One instruction of `consumerRun`. */
  function SinkProgram(c: Config, p: Params, s: RigState): RigState {
    match s.sink
    case CWaitStart(r) =>
      if r < p.rounds && s.ring.cbuf == [] && SyncWord(s) == 3 * r + 1
      then s.(ring := Step(c, s.ring, CSync(3 * r + 1)), sink := CReceive(r, p.reps, p.reps, None))
      else s
    case CReceive(r, i, expected, got) =>
      if s.ring.cpc.CWindow? then
        match got
        case None =>
          var ring' := Step(c, s.ring, CGet(0));
          s.(ring := ring', sink := CReceive(r, i, expected, Some(if 0 in ring'.reading then ring'.reading[0] else 0)))
        case Some(v) =>
          s.(ring := Step(c, s.ring, CRelease),
             sink := CReceive(r, i, v, got),
             errors := if v != i then s.errors + 1 else s.errors,
             javaErrors := if v != expected then s.javaErrors + 1 else s.javaErrors)
      else
        var ring' := Step(c, s.ring, CAdvance);
        if s.ring.cpc.CReleasing? then
          s.(ring := ring', sink := if i <= 1 then CWaitEnd(r) else CReceive(r, i - 1, expected - 1, None))
        else
          s.(ring := ring', empty := if s.ring.cpc.CRetest? && ring'.cpc.CIdle? then s.empty + 1 else s.empty)
    case CWaitEnd(r) =>
      if s.ring.cbuf == [] && SyncWord(s) == 3 * r + 1
      then s.(ring := Step(c, s.ring, CSync(3 * r + 2)), sink := CWaitStart(r + 1))
      else s
  }

  function SourceStep(p: Params, s: RigState): RigState {
    SourceProgram(Unbounded(p.k), p, s)
  }

  function SinkStep(p: Params, s: RigState): RigState {
    SinkProgram(Unbounded(p.k), p, s)
  }

  function RigStep(p: Params, s: RigState, t: Thread): RigState {
    match t
    case Producer => SourceStep(p, s)
    case Consumer => SinkStep(p, s)
    case ProducerBuffer => s.(ring := RingStep(p, s, PDrain))
    case ConsumerBuffer => s.(ring := RingStep(p, s, CDrain))
  }

  function RigExec(p: Params, s: RigState, run: seq<Thread>): RigState
    decreases |run|
  {
    if run == [] then s else RigExec(p, RigStep(p, s, run[0]), run[1..])
  }

  /** Both sides constructed, the ring empty, SYNC reset. */
  ghost predicate RigStart(p: Params, s: RigState) {
    && Start(p.k, s.ring)
    && |s.ring.offered| == |s.ring.consumed| == p.base
    && SyncWord(s) == 0
    && s.source == PWaitStart(0) && s.sink == CWaitStart(0)
    && s.full == s.empty == s.errors == s.javaErrors == 0
  }

  predicate Final(p: Params, s: RigState) {
    s.source == PWaitStart(p.rounds) && s.sink == CWaitStart(p.rounds)
  }

  // ---------------------------------------------------------------- invariant

  function Messages(rounds: nat, reps: nat): nat {
    rounds * reps
  }

  /** The word sent as message m of the whole rig: each round counts reps, reps-1, ..., 1. */
  function Word(p: Params, m: nat): int
    requires p.reps >= 1
  {
    p.reps - m % p.reps
  }

  function Sent(p: Params, src: Source): int {
    match src
    case PWaitStart(r) => Messages(r, p.reps)
    case PSend(r, i, _) => Messages(r, p.reps) + p.reps - i
    case PWaitEnd(r) => Messages(r + 1, p.reps)
  }

  function Received(p: Params, sink: Sink): int {
    match sink
    case CWaitStart(r) => Messages(r, p.reps)
    case CReceive(r, i, _, _) => Messages(r, p.reps) + p.reps - i
    case CWaitEnd(r) => Messages(r + 1, p.reps)
  }

  /** How far the two processes may be apart, and the sync word in each case. */
  ghost predicate Handshake(p: Params, s: RigState) {
    match s.source
    case PWaitStart(r) => r <= p.rounds && s.sink == CWaitStart(r) && SyncWord(s) == 3 * r
    case PSend(r, i, _) =>
      && r < p.rounds && 1 <= i <= p.reps
      && s.sink.r == r && SyncWord(s) == 3 * r + 1
    case PWaitEnd(r) =>
      && r < p.rounds
      && ((s.sink.r == r && SyncWord(s) == 3 * r + 1) || (s.sink == CWaitStart(r + 1) && SyncWord(s) == 3 * r + 2))
  }

  /** The source's program counter and the ring's producer counter fit together. */
  predicate SourceControl(s: RigState) {
    && (!s.source.PSend? ==> s.ring.ppc.PIdle?)
    && (s.source.PSend? && s.source.put ==> s.ring.ppc.PWindow? || s.ring.ppc.POffering?)
    && (s.source.PSend? && !s.source.put ==> !s.ring.ppc.POffering?)
  }

  ghost predicate SourceSound(p: Params, s: RigState) {
    && |s.ring.offered| == p.base + Sent(p, s.source)
    && SourceControl(s)
    && (s.source.PSend? && s.source.put ==> Payload(PView(s.ring), |s.ring.offered|, p.k)[0] == s.source.i)
  }

  predicate SinkControl(p: Params, s: RigState) {
    && (!s.sink.CReceive? ==> s.ring.cpc.CIdle?)
    && (s.sink.CWaitStart? ==> s.ring.cbuf == [])
    && (s.sink.CReceive? ==>
          && 1 <= s.sink.i <= p.reps
          && if s.sink.got.Some? then s.ring.cpc.CWindow? || s.ring.cpc.CReleasing? else !s.ring.cpc.CReleasing?)
  }

  ghost predicate SinkSound(p: Params, s: RigState) {
    && |s.ring.consumed| == p.base + Received(p, s.sink)
    && SinkControl(p, s)
    && (s.sink.CReceive? ==>
          && s.sink.expected == s.sink.i
          && (s.sink.got.Some? ==> s.sink.got.value == s.sink.i))
    && s.ring.reading == (if s.sink.CReceive? && s.sink.got.Some? then map[0 := s.sink.i] else map[])
    && s.errors == 0 && s.javaErrors == 0
  }

  /** All messages carry the countdown of their round, and arrive as sent. */
  ghost predicate Transcript(p: Params, ring: State)
    requires p.reps >= 1
  {
    && (forall m: nat :: p.base <= m < |ring.offered| ==>
          |ring.offered[m]| == SLOT_WORDS && ring.offered[m][0] == Word(p, m - p.base))
    && (forall m: nat :: p.base <= m < |ring.consumed| ==> ring.consumed[m] == map[0 := Word(p, m - p.base)])
  }

  ghost predicate RigInv(p: Params, s: RigState)
    requires p.reps >= 1
  {
    && Inv(p.k, s.ring)
    && Handshake(p, s)
    && SourceSound(p, s)
    && SinkSound(p, s)
    && Transcript(p, s.ring)
  }

  lemma MessagesNext(r: nat, reps: nat)
    ensures Messages(r + 1, reps) == Messages(r, reps) + reps
  {
  }

  lemma WordInRound(p: Params, r: nat, i: nat)
    requires 1 <= i <= p.reps
    ensures Word(p, Messages(r, p.reps) + p.reps - i) == i
  {
    UniqueRemainder(Messages(r, p.reps) + p.reps - i, p.reps, r, p.reps - i);
  }

  lemma RigStartSatisfiesInv(p: Params, s: RigState)
    requires p.reps >= 1 && RigStart(p, s)
    ensures RigInv(p, s)
  {
    StartSatisfiesInv(p.k, s.ring);
  }

  // ---------------------------------------------------------- what each step keeps

  /** Only locked updates move the sync word. */
  lemma SyncUnmoved(k: nat, s: State, a: Action)
    requires Inv(k, s) && !a.PSync? && !a.CSync?
    ensures At(Step(Unbounded(k), s, a).mem, SYNC) == At(s.mem, SYNC)
  {
  }

  /** What a producer-side action can change for the sink, and conversely. */
  lemma SinkUntouched(p: Params, s: RigState, s': RigState, a: Action)
    requires SinkSound(p, s) && s'.ring == RingStep(p, s, a)
    requires a.PAdvance? || a.PPut? || a.POffer? || a.PDrain? || a.PSync?
    requires s'.sink == s.sink && s'.errors == s.errors && s'.javaErrors == s.javaErrors
    ensures SinkSound(p, s')
  {
  }

  lemma SourceUntouched(p: Params, s: RigState, s': RigState, a: Action)
    requires Inv(p.k, s.ring) && SourceSound(p, s) && s'.ring == RingStep(p, s, a)
    requires a.CAdvance? || a.CGet? || a.CRelease? || a.CDrain? || a.CSync?
    requires s'.source == s.source
    ensures SourceSound(p, s')
  {
    if s.ring.ppc.PWindow? || s.ring.ppc.POffering? {
      WindowHoldsWhatWasPut(p.k, s.ring, a);
    }
  }

  lemma SourceInWindowKeepsSound(p: Params, s: RigState)
    requires p.reps >= 1 && RigInv(p, s) && s.source.PSend? && s.ring.ppc.PWindow?
    ensures SourceSound(p, SourceStep(p, s))
    ensures Transcript(p, SourceStep(p, s).ring)
  {
    WindowHoldsWhatWasPut(p.k, s.ring, if s.source.put then POffer else PPut(0, s.source.i));
  }

  /** Publishing appends the countdown value to the transcript. */
  lemma SourceOfferKeepsSound(p: Params, s: RigState)
    requires p.reps >= 1 && RigInv(p, s) && s.source.PSend? && s.ring.ppc.POffering?
    ensures SourceSound(p, SourceStep(p, s))
    ensures Transcript(p, SourceStep(p, s).ring)
  {
    WordInRound(p, s.source.r, s.source.i);
    MessagesNext(s.source.r, p.reps);
  }

  lemma SourceKeepsSound(p: Params, s: RigState)
    requires p.reps >= 1 && RigInv(p, s) && s.source.PSend?
    ensures SourceSound(p, SourceStep(p, s))
    ensures Transcript(p, SourceStep(p, s).ring)
  {
    if s.ring.ppc.PWindow? {
      SourceInWindowKeepsSound(p, s);
    } else if s.ring.ppc.POffering? {
      SourceOfferKeepsSound(p, s);
    }
  }

  lemma SendKeepsInv(p: Params, s: RigState)
    requires p.reps >= 1 && RigInv(p, s) && s.source.PSend?
    ensures RigInv(p, SourceStep(p, s))
  {
    var a := if !s.ring.ppc.PWindow? then PAdvance else if s.source.put then POffer else PPut(0, s.source.i);
    var s' := SourceStep(p, s);
    assert s'.ring == RingStep(p, s, a);
    StepKeepsInv(p.k, s.ring, a);
    SyncUnmoved(p.k, s.ring, a);
    SinkUntouched(p, s, s', a);
    SourceKeepsSound(p, s);
  }

  lemma SourceCasKeepsInv(p: Params, s: RigState)
    requires p.reps >= 1 && RigInv(p, s) && !s.source.PSend?
    ensures RigInv(p, SourceStep(p, s))
  {
    var s' := SourceStep(p, s);
    if s' != s {
      var a := PSync(if s.source.PWaitStart? then 3 * s.source.r + 1 else 3 * s.source.r + 3);
      StepKeepsInv(p.k, s.ring, a);
      SinkUntouched(p, s, s', a);
      MessagesNext(s.source.r, p.reps);
    }
  }

  /** The word the sink loads is the countdown it expects. */
  lemma LoadedWordIsExpected(p: Params, s: RigState)
    requires p.reps >= 1 && RigInv(p, s) && s.sink.CReceive? && s.ring.cpc.CWindow?
    ensures RingStep(p, s, CGet(0)).reading == s.ring.reading[0 := s.sink.i]
  {
    WindowReadsOffered(p.k, s.ring, 0);
    WordInRound(p, s.sink.r, s.sink.i);
  }

  lemma SinkInWindowKeepsSound(p: Params, s: RigState)
    requires p.reps >= 1 && RigInv(p, s) && s.sink.CReceive? && s.ring.cpc.CWindow?
    ensures SinkSound(p, SinkStep(p, s))
    ensures Transcript(p, SinkStep(p, s).ring)
  {
    LoadedWordIsExpected(p, s);
  }

  lemma SinkReleaseKeepsSound(p: Params, s: RigState)
    requires p.reps >= 1 && RigInv(p, s) && s.sink.CReceive? && s.ring.cpc.CReleasing?
    ensures SinkSound(p, SinkStep(p, s))
    ensures Transcript(p, SinkStep(p, s).ring)
  {
    WordInRound(p, s.sink.r, s.sink.i);
    MessagesNext(s.sink.r, p.reps);
  }

  lemma SinkKeepsSound(p: Params, s: RigState)
    requires p.reps >= 1 && RigInv(p, s) && s.sink.CReceive?
    ensures SinkSound(p, SinkStep(p, s))
    ensures Transcript(p, SinkStep(p, s).ring)
  {
    if s.ring.cpc.CWindow? {
      SinkInWindowKeepsSound(p, s);
    } else if s.ring.cpc.CReleasing? {
      SinkReleaseKeepsSound(p, s);
    }
  }

  lemma ReceiveKeepsInv(p: Params, s: RigState)
    requires p.reps >= 1 && RigInv(p, s) && s.sink.CReceive?
    ensures RigInv(p, SinkStep(p, s))
  {
    var a := if !s.ring.cpc.CWindow? then CAdvance else if s.sink.got.None? then CGet(0) else CRelease;
    var s' := SinkStep(p, s);
    assert s'.ring == RingStep(p, s, a);
    StepKeepsInv(p.k, s.ring, a);
    SyncUnmoved(p.k, s.ring, a);
    SourceUntouched(p, s, s', a);
    SinkKeepsSound(p, s);
  }

  /** The sink finished the round, so the source did too: nothing is left in between. */
  lemma SinkAtEndMeansSourceAtEnd(p: Params, s: RigState)
    requires p.reps >= 1 && RigInv(p, s) && s.sink.CWaitEnd?
    ensures s.source == PWaitEnd(s.sink.r)
  {
    Chain(p.k, s.ring);
    MessagesNext(s.sink.r, p.reps);
  }

  lemma SinkCasKeepsSound(p: Params, s: RigState)
    requires p.reps >= 1 && RigInv(p, s) && !s.sink.CReceive?
    ensures SinkSound(p, SinkStep(p, s)) && Transcript(p, SinkStep(p, s).ring)
  {
  }

  lemma SinkCasKeepsInv(p: Params, s: RigState)
    requires p.reps >= 1 && RigInv(p, s) && !s.sink.CReceive?
    ensures RigInv(p, SinkStep(p, s))
  {
    hide Inv;
    var s' := SinkStep(p, s);
    if s' != s {
      var a := CSync(if s.sink.CWaitStart? then 3 * s.sink.r + 1 else 3 * s.sink.r + 2);
      StepKeepsInv(p.k, s.ring, a);
      SourceUntouched(p, s, s', a);
      SinkCasKeepsSound(p, s);
      if s.sink.CWaitEnd? {
        SinkAtEndMeansSourceAtEnd(p, s);
      }
    }
  }

  lemma DrainKeepsInv(p: Params, s: RigState, a: Action)
    requires p.reps >= 1 && RigInv(p, s) && (a == PDrain || a == CDrain)
    ensures RigInv(p, s.(ring := RingStep(p, s, a)))
  {
    var s' := s.(ring := RingStep(p, s, a));
    StepKeepsInv(p.k, s.ring, a);
    SyncUnmoved(p.k, s.ring, a);
    if a == PDrain {
      SinkUntouched(p, s, s', a);
    } else {
      SourceUntouched(p, s, s', a);
    }
  }

  lemma RigStepKeepsInv(p: Params, s: RigState, t: Thread)
    requires p.reps >= 1 && RigInv(p, s)
    ensures RigInv(p, RigStep(p, s, t))
  {
    match t
    case Producer => if s.source.PSend? { SendKeepsInv(p, s); } else { SourceCasKeepsInv(p, s); }
    case Consumer => if s.sink.CReceive? { ReceiveKeepsInv(p, s); } else { SinkCasKeepsInv(p, s); }
    case ProducerBuffer => DrainKeepsInv(p, s, PDrain);
    case ConsumerBuffer => DrainKeepsInv(p, s, CDrain);
  }

  lemma {:induction false} RigReachable(p: Params, s: RigState, run: seq<Thread>)
    requires p.reps >= 1 && RigInv(p, s)
    ensures RigInv(p, RigExec(p, s, run))
    decreases |run|
  {
    if run != [] {
      RigStepKeepsInv(p, s, run[0]);
      RigReachable(p, RigStep(p, s, run[0]), run[1..]);
    }
  }
}
