/**
 Every fair run of the rig finishes.

 A run is fair when source, sink and both store buffers each take infinitely many steps.
 However long either side spins in between, some thread's next step is always awaited, and
 the others cannot undo it: they leave the measure and the awaited thread as they are.
 */
module RigFairness {
  import opened Words
  import opened Layout
  import opened StoreBuffer
  import opened Ring
  import opened RingInvariant
  import opened Rig
  import opened RigTheorems

  // ------------------------------------------------------- stores on their way

  /** Drains until the file's word at a exceeds the bound. */
  function Pending(m: seq<int>, buf: seq<Store>, a: nat, bound: int): nat
    decreases |buf|
  {
    if At(m, a) > bound || buf == [] then 0 else 1 + Pending(Write(m, buf[0]), buf[1..], a, bound)
  }

  /** Stores behind the awaited one do not delay it, however many a spinning side adds. */
  lemma {:induction false} PendingExtends(m: seq<int>, buf: seq<Store>, buf': seq<Store>, a: nat, bound: int)
    requires buf <= buf' && At(Drained(m, buf), a) > bound
    ensures Pending(m, buf', a, bound) == Pending(m, buf, a, bound)
    decreases |buf|
  {
    if buf != [] && At(m, a) <= bound {
      assert buf'[0] == buf[0] && buf[1..] <= buf'[1..];
      PendingExtends(Write(m, buf[0]), buf[1..], buf'[1..], a, bound);
    }
  }

  lemma {:induction false} PendingElsewhere(m: seq<int>, m': seq<int>, buf: seq<Store>, a: nat, bound: int)
    requires |m| == |m'| && At(m, a) == At(m', a)
    ensures Pending(m', buf, a, bound) == Pending(m, buf, a, bound)
    decreases |buf|
  {
    if buf != [] {
      PendingElsewhere(Write(m, buf[0]), Write(m', buf[0]), buf[1..], a, bound);
    }
  }

  // --------------------------------------------------------- what is awaited

  datatype Phase =
    | SourceCas    // the source's compare-and-swap matches
    | SinkCas      // the sink's does
    | TailPending  // an offered element is not visible yet
    | Receiving    // the sink can see an element
    | HeadPending  // the ring is empty but the source cannot see the room yet
    | Sending      // the source can see room

  function PhaseOf(p: Params, s: RigState): Phase {
    if !s.source.PSend? && SyncWord(s) % 3 != 1 then SourceCas
    else if !s.sink.CReceive? then SinkCas
    else if |s.ring.consumed| < |s.ring.offered| then
      if At(s.ring.mem, TAIL) > |s.ring.consumed| then Receiving else TailPending
    else if At(s.ring.mem, HEAD) > FullHead(p, s) then Sending
    else HeadPending
  }

  /** The visible head at which the ring is full. */
  function FullHead(p: Params, s: RigState): int {
    |s.ring.offered| - Pow2(p.k) + 1
  }

  /** The thread whose next step is awaited. */
  function Awaited(p: Params, s: RigState): Thread {
    match PhaseOf(p, s)
    case SourceCas => if s.ring.pbuf == [] then Producer else ProducerBuffer
    case SinkCas => if s.ring.cbuf == [] then Consumer else ConsumerBuffer
    case TailPending => ProducerBuffer
    case Receiving => Consumer
    case HeadPending => ConsumerBuffer
    case Sending => Producer
  }

  /** Instructions left until the current call succeeds, one failure included if the side has
      already read a cursor that makes it fail. */
  function SourcePotential(p: Params, s: RigState): nat {
    SourceRank(s) + if SourceDoomed(p, s) then 10 else 0
  }

  function SinkPotential(s: RigState): nat {
    SinkRank(s) + if SinkDoomed(s) then 10 else 0
  }

  /** Steps of the awaited threads until the next message or handshake moves. */
  function Waiting(p: Params, s: RigState): nat {
    match PhaseOf(p, s)
    case SourceCas => |s.ring.pbuf|
    case SinkCas => |s.ring.cbuf|
    case TailPending => 100 + Pending(s.ring.mem, s.ring.pbuf, TAIL, |s.ring.consumed|)
    case Receiving => SinkPotential(s)
    case HeadPending => 100 + Pending(s.ring.mem, s.ring.cbuf, HEAD, FullHead(p, s))
    case Sending => SourcePotential(p, s)
  }

  function Stage(r: nat, started: bool): nat {
    2 * r + if started then 1 else 0
  }

  /** Messages to send, messages to receive and handshakes left. */
  function Left(p: Params, s: RigState): int {
    2 * Messages(p.rounds, p.reps) - Sent(p, s.source) - Received(p, s.sink)
    + 4 * p.rounds - Stage(s.source.r, !s.source.PWaitStart?) - Stage(s.sink.r, !s.sink.CWaitStart?)
  }

  lemma LeftNotNegative(p: Params, s: RigState)
    requires p.reps >= 1 && RigInv(p, s)
    ensures Left(p, s) >= 0
  {
    hide Inv;
    var r, q := s.source.r, s.sink.r;
    MessagesMonotone(r, p.rounds, p.reps);
    MessagesMonotone(q, p.rounds, p.reps);
    MessagesNext(r, p.reps);
    MessagesNext(q, p.reps);
    if r < p.rounds { MessagesMonotone(r + 1, p.rounds, p.reps); }
    if q < p.rounds { MessagesMonotone(q + 1, p.rounds, p.reps); }
  }

  predicate Closer(p: Params, s: RigState, s': RigState) {
    Left(p, s') < Left(p, s) || (Left(p, s') == Left(p, s) && Waiting(p, s') < Waiting(p, s))
  }

  predicate StillAwaits(p: Params, s: RigState, s': RigState) {
    Left(p, s') == Left(p, s) && Waiting(p, s') == Waiting(p, s) && Awaited(p, s') == Awaited(p, s)
  }

  /** A step of the awaited thread comes closer; any other step comes closer or changes nothing
      about what is awaited. */
  predicate Toward(p: Params, s: RigState, t: Thread) {
    var s' := RigStep(p, s, t);
    Closer(p, s, s') || (t != Awaited(p, s) && StillAwaits(p, s, s'))
  }

  // -------------------------------------------------------------- the source

  /** What holds of each phase. */
  lemma PhaseFacts(p: Params, s: RigState)
    requires p.k >= 1 && p.reps >= 1 && RigInv(p, s) && !Final(p, s)
    ensures PhaseOf(p, s) == SourceCas ==>
              s.source.r < p.rounds && s.sink.CWaitStart?
              && SyncWord(s) == 3 * s.source.r + if s.source.PWaitStart? then 0 else 2
    ensures PhaseOf(p, s) != SourceCas ==> SyncWord(s) == 3 * s.source.r + 1 && s.sink.r == s.source.r < p.rounds
    ensures PhaseOf(p, s) == TailPending ==> At(PView(s.ring), TAIL) > |s.ring.consumed|
    ensures PhaseOf(p, s) == Sending || PhaseOf(p, s) == HeadPending ==>
              s.source.PSend? && At(CView(s.ring), HEAD) > FullHead(p, s)
  {
    Chain(p.k, s.ring);
    assert Pow2(p.k) == 2 * Pow2(p.k - 1);
    MessagesNext(s.source.r, p.reps);
    WordsOfOwn(p.k, s.ring);
  }

  lemma WordsOfOwn(k: nat, s: State)
    requires Inv(k, s)
    ensures At(PView(s), TAIL) == |s.offered| && At(CView(s), HEAD) == |s.consumed|
  {
  }

  lemma SourceCasToward(p: Params, s: RigState)
    requires p.k >= 1 && p.reps >= 1 && RigInv(p, s) && !Final(p, s) && !s.source.PSend?
    ensures Toward(p, s, Producer)
  {
    hide Inv;
    PhaseFacts(p, s);
    MessagesNext(s.source.r, p.reps);
  }

  /** Between two offers a sending source changes only its own counter and buffer. */
  lemma SendingStep(p: Params, s: RigState)
    requires s.source.PSend? && !s.ring.ppc.POffering?
    ensures var s' := SourceStep(p, s);
            && s'.sink == s.sink
            && s'.source.PSend? && s'.source.r == s.source.r && s'.source.i == s.source.i
            && s'.ring == s.ring.(ppc := s'.ring.ppc, pbuf := s'.ring.pbuf, heldAtRead := s'.ring.heldAtRead)
            && s.ring.pbuf <= s'.ring.pbuf
  {
  }

  /** With room in sight every instruction of the source counts. */
  lemma SourcePotentialDrops(p: Params, s: RigState)
    requires Inv(p.k, s.ring) && SourceControl(s) && s.source.PSend? && !s.ring.ppc.POffering?
    requires At(s.ring.mem, HEAD) > FullHead(p, s)
    ensures SourcePotential(p, SourceStep(p, s)) < SourcePotential(p, s)
  {
    FullTestExact(p.k, s.ring);
  }

  lemma SendToward(p: Params, s: RigState)
    requires p.k >= 1 && p.reps >= 1 && RigInv(p, s) && !Final(p, s) && s.source.PSend?
    ensures Toward(p, s, Producer)
  {
    hide Inv, Pending;
    var s' := SourceStep(p, s);
    PhaseFacts(p, s);
    if s.ring.ppc.POffering? {
      MessagesNext(s.source.r, p.reps);
    } else {
      SendingStep(p, s);
      if PhaseOf(p, s) == TailPending {
        PendingExtends(s.ring.mem, s.ring.pbuf, s'.ring.pbuf, TAIL, |s.ring.consumed|);
      } else if PhaseOf(p, s) == Sending {
        SourcePotentialDrops(p, s);
      }
    }
  }

  // ---------------------------------------------------------------- the sink

  lemma SinkCasToward(p: Params, s: RigState)
    requires p.k >= 1 && p.reps >= 1 && RigInv(p, s) && !Final(p, s) && !s.sink.CReceive?
    ensures Toward(p, s, Consumer)
  {
    hide Inv;
    PhaseFacts(p, s);
    MessagesNext(s.sink.r, p.reps);
  }

  lemma ReceivingStep(p: Params, s: RigState)
    requires s.sink.CReceive? && !s.ring.cpc.CReleasing?
    ensures var s' := SinkStep(p, s);
            && s'.source == s.source
            && s'.sink.CReceive? && s'.sink.r == s.sink.r && s'.sink.i == s.sink.i
            && s'.ring == s.ring.(cpc := s'.ring.cpc, cbuf := s'.ring.cbuf, reading := s'.ring.reading,
                                  visibleAtRead := s'.ring.visibleAtRead)
            && s.ring.cbuf <= s'.ring.cbuf
  {
  }

  lemma SinkPotentialDrops(p: Params, s: RigState)
    requires Inv(p.k, s.ring) && SinkControl(p, s) && s.sink.CReceive? && !s.ring.cpc.CReleasing?
    requires At(s.ring.mem, TAIL) > |s.ring.consumed|
    ensures SinkPotential(SinkStep(p, s)) < SinkPotential(s)
  {
    EmptyTestExact(p.k, s.ring);
  }

  lemma ReceiveToward(p: Params, s: RigState)
    requires p.k >= 1 && p.reps >= 1 && RigInv(p, s) && !Final(p, s) && s.sink.CReceive?
    ensures Toward(p, s, Consumer)
  {
    hide Inv, Pending;
    var s' := SinkStep(p, s);
    PhaseFacts(p, s);
    if s.ring.cpc.CReleasing? {
      MessagesNext(s.sink.r, p.reps);
    } else {
      ReceivingStep(p, s);
      if PhaseOf(p, s) == HeadPending {
        PendingExtends(s.ring.mem, s.ring.cbuf, s'.ring.cbuf, HEAD, FullHead(p, s));
      } else if PhaseOf(p, s) == Receiving {
        SinkPotentialDrops(p, s);
      }
    }
  }

  // ------------------------------------------------------------- the buffers

  /** A drain of the producer never lowers the tail and moves no word of the consumer. */
  lemma ProducerDrain(k: nat, s: State)
    requires Inv(k, s) && s.pbuf != []
    ensures var m := Write(s.mem, s.pbuf[0]);
            && At(m, TAIL) >= At(s.mem, TAIL) && At(m, HEAD) == At(s.mem, HEAD) && At(m, SYNC) == At(s.mem, SYNC)
  {
  }

  lemma ConsumerDrain(k: nat, s: State)
    requires Inv(k, s) && s.cbuf != []
    ensures var m := Write(s.mem, s.cbuf[0]);
            && At(m, HEAD) >= At(s.mem, HEAD) && At(m, TAIL) == At(s.mem, TAIL) && At(m, SYNC) == At(s.mem, SYNC)
  {
  }

  lemma PotentialsBounded(p: Params, s: RigState)
    ensures SourcePotential(p, s) < 100 && SinkPotential(s) < 100
  {
  }

  lemma ProducerDrainToward(p: Params, s: RigState)
    requires p.k >= 1 && p.reps >= 1 && RigInv(p, s) && !Final(p, s)
    ensures Toward(p, s, ProducerBuffer)
  {
    hide Inv;
    PhaseFacts(p, s);
    if s.ring.pbuf != [] {
      var s' := RigStep(p, s, ProducerBuffer);
      ProducerDrain(p.k, s.ring);
      PotentialsBounded(p, s');
      PendingElsewhere(s.ring.mem, s'.ring.mem, s.ring.cbuf, HEAD, FullHead(p, s));
    }
  }

  lemma ConsumerDrainToward(p: Params, s: RigState)
    requires p.k >= 1 && p.reps >= 1 && RigInv(p, s) && !Final(p, s)
    ensures Toward(p, s, ConsumerBuffer)
  {
    hide Inv;
    PhaseFacts(p, s);
    if s.ring.cbuf != [] {
      var s' := RigStep(p, s, ConsumerBuffer);
      ConsumerDrain(p.k, s.ring);
      PotentialsBounded(p, s');
      PendingElsewhere(s.ring.mem, s'.ring.mem, s.ring.pbuf, TAIL, |s.ring.consumed|);
    }
  }

  lemma StepToward(p: Params, s: RigState, t: Thread)
    requires p.k >= 1 && p.reps >= 1 && RigInv(p, s) && !Final(p, s)
    ensures Toward(p, s, t)
  {
    match t
    case Producer => if s.source.PSend? { SendToward(p, s); } else { SourceCasToward(p, s); }
    case Consumer => if s.sink.CReceive? { ReceiveToward(p, s); } else { SinkCasToward(p, s); }
    case ProducerBuffer => ProducerDrainToward(p, s);
    case ConsumerBuffer => ConsumerDrainToward(p, s);
  }

  // ------------------------------------------------------------ infinite runs

  ghost predicate TakesStep(run: nat -> Thread, t: Thread, from: nat) {
    exists n: nat :: n >= from && run(n) == t
  }

  ghost predicate Fair(run: nat -> Thread) {
    forall t: Thread, from: nat :: TakesStep(run, t, from)
  }

  /** Steps from, ..., from + n - 1 of an infinite run. */
  function Segment(run: nat -> Thread, from: nat, n: nat): (steps: seq<Thread>)
    ensures |steps| == n
  {
    seq(n, i requires 0 <= i < n => run(from + i))
  }

  lemma SegmentSplits(run: nat -> Thread, from: nat, n: nat)
    ensures Segment(run, from, n + 1) == [run(from)] + Segment(run, from + 1, n)
  {
  }

  /** From a state whose awaited thread takes its next step at time `due`. */
  lemma {:induction false} FinishesFrom(p: Params, s: RigState, run: nat -> Thread, from: nat, due: nat)
    returns (n: nat)
    requires p.k >= 1 && p.reps >= 1 && RigInv(p, s) && Fair(run)
    requires from <= due && run(due) == Awaited(p, s)
    ensures Final(p, RigExec(p, s, Segment(run, from, n)))
    decreases Left(p, s), Waiting(p, s), due - from
  {
    hide RigInv, Left, Waiting, Awaited, RigStep;
    LeftNotNegative(p, s);
    if Final(p, s) {
      n := 0;
    } else {
      var s' := RigStep(p, s, run(from));
      StepToward(p, s, run(from));
      RigStepKeepsInv(p, s, run(from));
      var due' := due;
      if Closer(p, s, s') {
        assert TakesStep(run, Awaited(p, s'), from + 1);
        due' :| due' >= from + 1 && run(due') == Awaited(p, s');
      }
      n := FinishesFrom(p, s', run, from + 1, due');
      SegmentSplits(run, from, n);
      n := n + 1;
    }
  }

  lemma {:induction false} FinalLasts(p: Params, s: RigState, run: seq<Thread>)
    requires Final(p, s)
    ensures Final(p, RigExec(p, s, run))
    decreases |run|
  {
    if run != [] {
      FinalLasts(p, RigStep(p, s, run[0]), run[1..]);
    }
  }

  lemma {:induction false} RigExecAppends(p: Params, s: RigState, a: seq<Thread>, b: seq<Thread>)
    ensures RigExec(p, s, a + b) == RigExec(p, RigExec(p, s, a), b)
    decreases |a|
  {
    if a == [] {
      assert a + b == b;
    } else {
      assert (a + b)[1..] == a[1..] + b;
      RigExecAppends(p, RigStep(p, s, a[0]), a[1..], b);
    }
  }

  /** Every fair interleaving of source, sink and store buffers finishes all rounds, from every
      reachable state, and stays finished. */
  lemma FairRunFinishes(p: Params, s: RigState, run: nat -> Thread) returns (n: nat)
    requires p.k >= 1 && p.reps >= 1 && RigInv(p, s) && Fair(run)
    ensures forall m: nat :: m >= n ==> Final(p, RigExec(p, s, Segment(run, 0, m)))
  {
    assert TakesStep(run, Awaited(p, s), 0);
    var due: nat :| run(due) == Awaited(p, s);
    n := FinishesFrom(p, s, run, 0, due);
    forall m: nat | m >= n ensures Final(p, RigExec(p, s, Segment(run, 0, m))) {
      var rest := Segment(run, n, m - n);
      assert Segment(run, 0, m) == Segment(run, 0, n) + rest;
      RigExecAppends(p, s, Segment(run, 0, n), rest);
      FinalLasts(p, RigExec(p, s, Segment(run, 0, n)), rest);
    }
  }

  /** So a fair run from the start delivers every message of every round, in order. */
  lemma FairRunDelivers(p: Params, s0: RigState, run: nat -> Thread) returns (n: nat)
    requires p.k >= 1 && p.reps >= 1 && RigStart(p, s0) && Fair(run)
    ensures forall m: nat :: m >= n ==> AllDelivered(p, RigExec(p, s0, Segment(run, 0, m)).ring)
  {
    RigStartSatisfiesInv(p, s0);
    n := FairRunFinishes(p, s0, run);
    forall m: nat | m >= n ensures AllDelivered(p, RigExec(p, s0, Segment(run, 0, m)).ring) {
      FinalMeansAllDelivered(p, s0, Segment(run, 0, m));
    }
  }
}
