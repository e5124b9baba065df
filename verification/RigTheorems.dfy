/**
 Whole-run results about the rigs: rounds never mix, the rig never deadlocks, and the work
 outside retries is bounded.
 */
module RigTheorems {
  import opened Words
  import opened Layout
  import opened StoreBuffer
  import opened Ring
  import opened RingInvariant
  import opened RingTheorems
  import opened Rig

  lemma SourceSyncStep(p: Params, s: RigState)
    requires Handshake(p, s) && Inv(p.k, s.ring)
    ensures var s' := SourceStep(p, s);
            SyncWord(s') == SyncWord(s) || (SyncWord(s') == SyncWord(s) + 1 && SyncWord(s) % 3 != 1)
  {
    hide Inv;
    if s.source.PSend? {
      var a := if !s.ring.ppc.PWindow? then PAdvance else if s.source.put then POffer else PPut(0, s.source.i);
      SyncUnmoved(p.k, s.ring, a);
    }
  }

  lemma SinkSyncStep(p: Params, s: RigState)
    requires Handshake(p, s) && Inv(p.k, s.ring)
    ensures var s' := SinkStep(p, s);
            SyncWord(s') == SyncWord(s) || (SyncWord(s') == SyncWord(s) + 1 && SyncWord(s) % 3 == 1)
  {
    hide Inv;
    if s.sink.CReceive? {
      var a := if !s.ring.cpc.CWindow? then CAdvance else if s.sink.got.None? then CGet(0) else CRelease;
      SyncUnmoved(p.k, s.ring, a);
    }
  }

  /** What one step can do to the sync word. */
  lemma SyncStep(p: Params, s: RigState, t: Thread)
    requires Inv(p.k, s.ring) && Handshake(p, s)
    ensures var s' := RigStep(p, s, t);
            || SyncWord(s') == SyncWord(s)
            || (SyncWord(s') == SyncWord(s) + 1 && t == (if SyncWord(s) % 3 == 1 then Consumer else Producer))
  {
    match t
    case Producer => SourceSyncStep(p, s);
    case Consumer => SinkSyncStep(p, s);
    case ProducerBuffer => SyncUnmoved(p.k, s.ring, PDrain);
    case ConsumerBuffer => SyncUnmoved(p.k, s.ring, CDrain);
  }

  lemma SyncInRange(p: Params, s: RigState)
    requires Handshake(p, s)
    ensures 0 <= SyncWord(s) <= 3 * p.rounds
    ensures SyncWord(s) == 3 * p.rounds <==> Final(p, s)
  {
  }

  /** The sync word only counts up: the source takes 3r to 3r+1 and 3r+2 to 3r+3, the sink
      3r+1 to 3r+2; it ends at 3 * rounds. */
  lemma SyncCountsUp(p: Params, s0: RigState, run: seq<Thread>, t: Thread)
    requires p.reps >= 1 && RigStart(p, s0)
    ensures var s := RigExec(p, s0, run);
            var s' := RigStep(p, s, t);
            && 0 <= SyncWord(s) <= 3 * p.rounds
            && (SyncWord(s) == 3 * p.rounds <==> Final(p, s))
            && (SyncWord(s') == SyncWord(s)
                || (SyncWord(s') == SyncWord(s) + 1
                    && t == (if SyncWord(s) % 3 == 1 then Consumer else Producer)))
  {
    RigStartSatisfiesInv(p, s0);
    RigReachable(p, s0, run);
    SyncInRange(p, RigExec(p, s0, run));
    SyncStep(p, RigExec(p, s0, run), t);
  }

  /** At 3r+2 the sink has finished round r and the source has not begun the next. */
  lemma RoundBoundary(p: Params, s: RigState, r: nat)
    requires Handshake(p, s) && SyncWord(s) == 3 * r + 2
    ensures s.source == PWaitEnd(r) && s.sink == CWaitStart(r + 1)
  {
  }

  lemma RoundWord(p: Params, ring: State, r: nat, i: nat)
    requires p.reps >= 1 && Transcript(p, ring) && |ring.consumed| >= p.base + Messages(r + 1, p.reps)
    requires 1 <= i <= p.reps
    ensures var m := p.base + Messages(r + 1, p.reps) - i;
            0 <= m < |ring.consumed| && ring.consumed[m] == map[0 := i]
  {
    hide Word, Messages;
    MessagesNext(r, p.reps);
    WordInRound(p, r, i);
    var m: nat := p.base + Messages(r + 1, p.reps) - i;
    assert ring.consumed[m] == map[0 := Word(p, m - p.base)];
  }

  /** The messages of round r, counted back from its end. */
  lemma RoundWords(p: Params, ring: State, r: nat)
    requires p.reps >= 1 && Transcript(p, ring) && |ring.consumed| >= p.base + Messages(r + 1, p.reps)
    ensures forall i :: 1 <= i <= p.reps ==>
              && 0 <= p.base + Messages(r + 1, p.reps) - i < |ring.consumed|
              && ring.consumed[p.base + Messages(r + 1, p.reps) - i] == map[0 := i]
  {
    hide Transcript;
    forall i | 1 <= i <= p.reps
      ensures 0 <= p.base + Messages(r + 1, p.reps) - i < |ring.consumed|
      ensures ring.consumed[p.base + Messages(r + 1, p.reps) - i] == map[0 := i]
    {
      RoundWord(p, ring, r, i);
    }
  }

  lemma RoundBoundaryIsEmpty(p: Params, s: RigState, r: nat)
    requires Inv(p.k, s.ring) && SourceSound(p, s) && SinkSound(p, s)
    requires s.source == PWaitEnd(r) && s.sink == CWaitStart(r + 1)
    ensures At(s.ring.mem, HEAD) == At(s.ring.mem, TAIL) == p.base + Messages(r + 1, p.reps)
    ensures |s.ring.consumed| == |s.ring.offered| == p.base + Messages(r + 1, p.reps)
  {
    Chain(p.k, s.ring);
  }

  /** The ring is empty, the sink has received exactly reps, reps-1, ..., 1 in round r, and
      the source has sent nothing beyond it. */
  ghost predicate RoundComplete(p: Params, ring: State, r: nat) {
    var end := p.base + Messages(r + 1, p.reps);
    && At(ring.mem, HEAD) == At(ring.mem, TAIL) == |ring.consumed| == |ring.offered| == end
    && (forall i :: 1 <= i <= p.reps ==> 0 <= end - i < |ring.consumed| && ring.consumed[end - i] == map[0 := i])
  }

  lemma RoundEnds(p: Params, s: RigState, r: nat)
    requires p.reps >= 1 && RigInv(p, s) && SyncWord(s) == 3 * r + 2
    ensures RoundComplete(p, s.ring, r)
  {
    RoundBoundary(p, s, r);
    RoundBoundaryIsEmpty(p, s, r);
    RoundWords(p, s.ring, r);
  }

  /** Whenever the sync word is 3r+2, round r is complete and the next has not begun. */
  lemma RoundsNeverMix(p: Params, s0: RigState, run: seq<Thread>, r: nat)
    requires p.reps >= 1 && RigStart(p, s0)
    requires SyncWord(RigExec(p, s0, run)) == 3 * r + 2
    ensures RoundComplete(p, RigExec(p, s0, run).ring, r)
  {
    RigStartSatisfiesInv(p, s0);
    RigReachable(p, s0, run);
    RoundEnds(p, RigExec(p, s0, run), r);
  }

  /** In every reachable state of every run both out-of-order counters are zero. */
  lemma NoOutOfOrderErrors(p: Params, s0: RigState, run: seq<Thread>)
    requires p.reps >= 1 && RigStart(p, s0)
    ensures RigExec(p, s0, run).errors == 0 && RigExec(p, s0, run).javaErrors == 0
  {
    RigStartSatisfiesInv(p, s0);
    RigReachable(p, s0, run);
  }

  /** Every message of every round was received as sent, and the ring is empty. */
  ghost predicate AllDelivered(p: Params, ring: State)
    requires p.reps >= 1
  {
    && |ring.consumed| == |ring.offered| == p.base + p.rounds * p.reps
    && At(ring.mem, HEAD) == At(ring.mem, TAIL)
    && (forall m: nat :: m < p.rounds * p.reps ==> ring.consumed[p.base + m] == map[0 := p.reps - m % p.reps])
  }

  lemma ReceivedWord(p: Params, ring: State, m: nat)
    requires p.reps >= 1 && Transcript(p, ring) && p.base + m < |ring.consumed|
    ensures ring.consumed[p.base + m] == map[0 := p.reps - m % p.reps]
  {
    assert ring.consumed[p.base + m] == map[0 := Word(p, p.base + m - p.base)];
  }

  lemma FinalCounts(p: Params, s: RigState)
    requires p.reps >= 1 && RigInv(p, s) && Final(p, s)
    ensures |s.ring.consumed| == |s.ring.offered| == p.base + p.rounds * p.reps
    ensures At(s.ring.mem, HEAD) == At(s.ring.mem, TAIL)
  {
    Chain(p.k, s.ring);
  }

  lemma FinalDelivered(p: Params, s: RigState)
    requires p.reps >= 1 && RigInv(p, s) && Final(p, s)
    ensures AllDelivered(p, s.ring)
  {
    hide Inv, Transcript;
    FinalCounts(p, s);
    forall m: nat | m < p.rounds * p.reps ensures s.ring.consumed[p.base + m] == map[0 := p.reps - m % p.reps] {
      ReceivedWord(p, s.ring, m);
    }
  }

  /** A finished rig has moved every message of every round, and left the ring empty. */
  lemma FinalMeansAllDelivered(p: Params, s0: RigState, run: seq<Thread>)
    requires p.reps >= 1 && RigStart(p, s0) && Final(p, RigExec(p, s0, run))
    ensures AllDelivered(p, RigExec(p, s0, run).ring)
  {
    RigStartSatisfiesInv(p, s0);
    RigReachable(p, s0, run);
    FinalDelivered(p, RigExec(p, s0, run));
  }

  // ------------------------------------------------------------ bounded work

  function SourceRank(s: RigState): nat {
    if !s.source.PSend? then 0 else
    match s.ring.ppc
    case PIdle => 8
    case PTest(_) => 7
    case PLoadHead(_) => 6
    case PSetCache(_, _) => 5
    case PRetest(_) => 4
    case PWindow(_) => if s.source.put then 2 else 3
    case POffering(_) => 1
  }

  function SinkRank(s: RigState): nat {
    if !s.sink.CReceive? then 0 else
    match s.ring.cpc
    case CIdle => 8
    case CTest(_) => 7
    case CLoadTail(_) => 6
    case CSetCache(_, _) => 5
    case CRetest(_) => 4
    case CWindow(_) => if s.sink.got.Some? then 2 else 3
    case CReleasing(_) => 1
  }

  function SourceWork(p: Params, s: RigState): int {
    var r := s.source.r;
    20 * (Messages(p.rounds, p.reps) - Sent(p, s.source))
    + 40 * (2 * (p.rounds - r) - if s.source.PWaitStart? then 0 else 1)
    + 2 * SourceRank(s) + |s.ring.pbuf|
  }

  function SinkWork(p: Params, s: RigState): int {
    20 * (Messages(p.rounds, p.reps) - Received(p, s.sink))
    + 40 * (3 * (p.rounds - s.sink.r) - if s.sink.CWaitStart? then 0 else if s.sink.CReceive? then 1 else 2)
    + 2 * SinkRank(s) + |s.ring.cbuf|
  }

  /** Work left: messages, handshakes, instructions of the current call, stores to drain. */
  function Work(p: Params, s: RigState): int {
    SourceWork(p, s) + SinkWork(p, s)
  }

  lemma MessagesMonotone(a: nat, b: nat, reps: nat)
    requires a <= b
    ensures Messages(a, reps) <= Messages(b, reps)
  {
    assert b * reps - a * reps == (b - a) * reps;
  }

  lemma WorkNotNegative(p: Params, s: RigState)
    requires p.reps >= 1 && RigInv(p, s)
    ensures SourceWork(p, s) >= 0 && SinkWork(p, s) >= 0
  {
    var r, q := s.source.r, s.sink.r;
    assert r <= p.rounds && q <= p.rounds;
    MessagesMonotone(r, p.rounds, p.reps);
    MessagesMonotone(q, p.rounds, p.reps);
    MessagesNext(r, p.reps);
    MessagesNext(q, p.reps);
    if r < p.rounds { MessagesMonotone(r + 1, p.rounds, p.reps); }
    if q < p.rounds { MessagesMonotone(q + 1, p.rounds, p.reps); }
  }

  function Retries(s: RigState): nat {
    s.full + s.empty
  }

  lemma SourceStepWork(p: Params, s: RigState)
    requires p.reps >= 1 && Handshake(p, s) && SourceControl(s) && SourceStep(p, s) != s
    ensures var s' := SourceStep(p, s);
            && SinkWork(p, s') == SinkWork(p, s)
            && (Retries(s') == Retries(s) ==> SourceWork(p, s') < SourceWork(p, s))
            && (Retries(s') != Retries(s) ==>
                  Retries(s') == Retries(s) + 1 && SourceWork(p, s') == SourceWork(p, s) + 8)
  {
    hide Drained, At, Masked;
    MessagesNext(s.source.r, p.reps);
  }

  /** Inside a call of the sink: one instruction less, or a null `poll` to repeat. */
  lemma ReceiveRank(p: Params, s: RigState)
    requires SinkControl(p, s) && s.sink.CReceive? && !s.ring.cpc.CReleasing?
    ensures var s' := SinkStep(p, s);
            var before, after := 2 * SinkRank(s) + |s.ring.cbuf|, 2 * SinkRank(s') + |s'.ring.cbuf|;
            && s'.sink.CReceive? && s'.sink.r == s.sink.r && s'.sink.i == s.sink.i
            && ((Retries(s') == Retries(s) && after < before) || (Retries(s') == Retries(s) + 1 && after == before + 8))
  {
    hide Drained, At, Masked;
  }

  lemma SinkStepWork(p: Params, s: RigState)
    requires p.reps >= 1 && SinkControl(p, s) && SinkStep(p, s) != s
    ensures var s' := SinkStep(p, s);
            && SourceWork(p, s') == SourceWork(p, s)
            && (Retries(s') == Retries(s) ==> SinkWork(p, s') < SinkWork(p, s))
            && (Retries(s') != Retries(s) ==>
                  Retries(s') == Retries(s) + 1 && SinkWork(p, s') == SinkWork(p, s) + 8)
  {
    hide Drained, At, Masked;
    MessagesNext(s.sink.r, p.reps);
    if s.sink.CReceive? && !s.ring.cpc.CReleasing? {
      ReceiveRank(p, s);
    }
  }

  lemma DrainWork(p: Params, s: RigState, t: Thread)
    requires t == ProducerBuffer || t == ConsumerBuffer
    requires RigStep(p, s, t) != s
    ensures Retries(RigStep(p, s, t)) == Retries(s) && Work(p, RigStep(p, s, t)) == Work(p, s) - 1
  {
    hide Drained, At, Masked, Messages, Sent, Received;
    if t == ProducerBuffer {
      assert s.ring.pbuf != [];
    } else {
      assert s.ring.cbuf != [];
    }
  }

  /** Every step that changes anything is a retry or lowers the work left. */
  lemma StepLowersWork(p: Params, s: RigState, t: Thread)
    requires p.reps >= 1 && RigInv(p, s) && RigStep(p, s, t) != s
    ensures var s' := RigStep(p, s, t);
            || (Retries(s') == Retries(s) && Work(p, s') < Work(p, s))
            || (Retries(s') == Retries(s) + 1 && Work(p, s') == Work(p, s) + 8)
  {
    match t
    case Producer => SourceStepWork(p, s);
    case Consumer => SinkStepWork(p, s);
    case _ => DrainWork(p, s, t);
  }

  /** Steps of the run that change the state. */
  function Changes(p: Params, s: RigState, run: seq<Thread>): nat
    decreases |run|
  {
    if run == [] then 0
    else (if RigStep(p, s, run[0]) != s then 1 else 0) + Changes(p, RigStep(p, s, run[0]), run[1..])
  }

  /** Over any run of any interleaving, the state changes are bounded by the initial work
      plus nine for each false `preOffer` and each null `poll`. */
  lemma {:induction false} WorkIsBounded(p: Params, s: RigState, run: seq<Thread>)
    requires p.reps >= 1 && RigInv(p, s)
    ensures var e := RigExec(p, s, run);
            Changes(p, s, run) <= Work(p, s) + 9 * (Retries(e) - Retries(s))
    decreases |run|
  {
    if run == [] {
      WorkNotNegative(p, s);
    } else {
      RigStepKeepsInv(p, s, run[0]);
      WorkIsBounded(p, RigStep(p, s, run[0]), run[1..]);
      if RigStep(p, s, run[0]) != s {
        StepLowersWork(p, s, run[0]);
      }
    }
  }

  /** The source's call answers false in this step. */
  predicate AnswersFull(p: Params, s: RigState, t: Thread) {
    t == Producer && s.source.PSend? && s.ring.ppc.PRetest? && RigStep(p, s, t).ring.ppc.PIdle?
  }

  /** The sink's call answers null in this step. */
  predicate AnswersEmpty(p: Params, s: RigState, t: Thread) {
    t == Consumer && s.sink.CReceive? && s.ring.cpc.CRetest? && RigStep(p, s, t).ring.cpc.CIdle?
  }

  function FullAnswers(p: Params, s: RigState, run: seq<Thread>): nat
    decreases |run|
  {
    if run == [] then 0
    else (if AnswersFull(p, s, run[0]) then 1 else 0) + FullAnswers(p, RigStep(p, s, run[0]), run[1..])
  }

  function EmptyAnswers(p: Params, s: RigState, run: seq<Thread>): nat
    decreases |run|
  {
    if run == [] then 0
    else (if AnswersEmpty(p, s, run[0]) then 1 else 0) + EmptyAnswers(p, RigStep(p, s, run[0]), run[1..])
  }

  lemma RetryStep(p: Params, s: RigState, t: Thread)
    ensures var s' := RigStep(p, s, t);
            && s'.full == s.full + (if AnswersFull(p, s, t) then 1 else 0)
            && s'.empty == s.empty + (if AnswersEmpty(p, s, t) then 1 else 0)
  {
    hide Drained, At, Masked, Payload;
  }

  /** The counters the rigs print: `full` counts the false answers of `preOffer`, `empty` the
      null answers of `poll`, over any run. */
  lemma {:induction false} RetriesAreCounted(p: Params, s: RigState, run: seq<Thread>)
    ensures var e := RigExec(p, s, run);
            e.full == s.full + FullAnswers(p, s, run) && e.empty == s.empty + EmptyAnswers(p, s, run)
    decreases |run|
  {
    hide RigStep, AnswersFull, AnswersEmpty;
    if run != [] {
      RetryStep(p, s, run[0]);
      RetriesAreCounted(p, RigStep(p, s, run[0]), run[1..]);
    }
  }

  /** The out-of-order counters do count, in any state: a word other than the countdown raises the
      C++ counter, a word other than Java expects raises Java's, which then expects the word's
      predecessor. */
  lemma WrongWordIsCounted(p: Params, s: RigState)
    requires s.sink.CReceive? && s.ring.cpc.CWindow?
    ensures var s' := SinkStep(p, s);
            && (s.sink.got.None? ==>
                  s'.errors == s.errors && s'.javaErrors == s.javaErrors
                  && s'.sink.got == Some(At(CView(s.ring), SlotWord(s.ring.cpc.currentHead, p.k, 0))))
            && (s.sink.got.Some? && s.sink.got.value != s.sink.i ==> s'.errors == s.errors + 1)
            && (s.sink.got.Some? && s.sink.got.value != s.sink.expected ==> s'.javaErrors == s.javaErrors + 1)
            && (s.sink.got.Some? ==> s'.sink.expected == s.sink.got.value)
  {
    hide Drained, Masked;
  }

  // -------------------------------------------------------- deadlock freedom

  /** The source's next instruction moves it forward: its compare-and-swap matches, or a
      `preOffer` reading the head now finds room. */
  predicate SourceReady(p: Params, s: RigState) {
    match s.source
    case PWaitStart(r) => r < p.rounds && SyncWord(s) == 3 * r
    case PSend(_, _, _) => |s.ring.offered| - At(s.ring.mem, HEAD) < Pow2(p.k) - 1
    case PWaitEnd(r) => SyncWord(s) == 3 * r + 2
  }

  predicate SinkReady(p: Params, s: RigState) {
    match s.sink
    case CWaitStart(r) => r < p.rounds && SyncWord(s) == 3 * r + 1
    case CReceive(_, _, _, _) => |s.ring.consumed| < At(s.ring.mem, TAIL)
    case CWaitEnd(r) => SyncWord(s) == 3 * r + 1
  }

  /** With the buffers drained, an unfinished rig always has a side that is not blocked: the
      source is never stuck on full while the sink is stuck on empty or on the handshake. */
  lemma NeverDeadlocked(p: Params, s: RigState)
    requires p.k >= 1 && p.reps >= 1 && RigInv(p, s) && !Final(p, s)
    requires s.ring.pbuf == [] && s.ring.cbuf == []
    ensures SourceReady(p, s) || SinkReady(p, s)
  {
    Chain(p.k, s.ring);
    assert Pow2(p.k) == 2 * Pow2(p.k - 1);
    MessagesNext(s.source.r, p.reps);
  }

  /** A call already past its refresh that is bound to answer false (or null). */
  predicate SourceDoomed(p: Params, s: RigState) {
    s.source.PSend? && (s.ring.ppc.PSetCache? || s.ring.ppc.PRetest?) && s.ring.heldAtRead == Pow2(p.k) - 1
  }

  predicate SinkDoomed(s: RigState) {
    s.sink.CReceive? && (s.ring.cpc.CSetCache? || s.ring.cpc.CRetest?) && s.ring.visibleAtRead == 0
  }

  function Distance(p: Params, s: RigState): int {
    Work(p, s) + (if SourceDoomed(p, s) then 10 else 0) + (if SinkDoomed(s) then 10 else 0)
  }

  /** Only a doomed call is retried, and a ready side does not become doomed. */
  lemma ReadySourceDoom(p: Params, s: RigState)
    requires Inv(p.k, s.ring) && Handshake(p, s) && SourceControl(s)
    requires SourceReady(p, s) && s.ring.pbuf == []
    ensures var s' := SourceStep(p, s);
            && s' != s
            && (Retries(s') != Retries(s) ==> SourceDoomed(p, s))
            && (SourceDoomed(p, s') ==> SourceDoomed(p, s) && Retries(s') == Retries(s))
            && SinkDoomed(s') == SinkDoomed(s)
  {
    FullTestExact(p.k, s.ring);
  }

  lemma ReadySinkDoom(p: Params, s: RigState)
    requires Inv(p.k, s.ring) && SinkControl(p, s) && SinkReady(p, s) && s.ring.cbuf == []
    ensures var s' := SinkStep(p, s);
            && s' != s
            && (Retries(s') != Retries(s) ==> SinkDoomed(s))
            && (SinkDoomed(s') ==> SinkDoomed(s) && Retries(s') == Retries(s))
            && SourceDoomed(p, s') == SourceDoomed(p, s)
  {
    EmptyTestExact(p.k, s.ring);
  }

  lemma ReadySourceAdvances(p: Params, s: RigState)
    requires p.reps >= 1 && RigInv(p, s) && SourceReady(p, s) && s.ring.pbuf == []
    ensures Distance(p, RigStep(p, s, Producer)) < Distance(p, s)
  {
    ReadySourceDoom(p, s);
    SourceStepWork(p, s);
  }

  lemma ReadySinkAdvances(p: Params, s: RigState)
    requires p.reps >= 1 && RigInv(p, s) && SinkReady(p, s) && s.ring.cbuf == []
    ensures Distance(p, RigStep(p, s, Consumer)) < Distance(p, s)
  {
    ReadySinkDoom(p, s);
    SinkStepWork(p, s);
  }

  lemma DrainAdvances(p: Params, s: RigState, t: Thread)
    requires (t == ProducerBuffer && s.ring.pbuf != []) || (t == ConsumerBuffer && s.ring.cbuf != [])
    ensures Distance(p, RigStep(p, s, t)) < Distance(p, s)
  {
    DrainWork(p, s, t);
  }

  /** A thread whose next step brings the rig closer to its end. */
  lemma SomeThreadAdvances(p: Params, s: RigState) returns (t: Thread)
    requires p.k >= 1 && p.reps >= 1 && RigInv(p, s) && !Final(p, s)
    ensures Distance(p, RigStep(p, s, t)) < Distance(p, s)
  {
    if s.ring.pbuf != [] {
      DrainAdvances(p, s, ProducerBuffer);
      t := ProducerBuffer;
    } else if s.ring.cbuf != [] {
      DrainAdvances(p, s, ConsumerBuffer);
      t := ConsumerBuffer;
    } else {
      NeverDeadlocked(p, s);
      if SourceReady(p, s) {
        ReadySourceAdvances(p, s);
        t := Producer;
      } else {
        ReadySinkAdvances(p, s);
        t := Consumer;
      }
    }
  }

  /** From every reachable state of every interleaving the rig can still run to its end. */
  lemma {:induction false} CanAlwaysFinish(p: Params, s: RigState) returns (run: seq<Thread>)
    requires p.k >= 1 && p.reps >= 1 && RigInv(p, s)
    ensures Final(p, RigExec(p, s, run)) && |run| <= Distance(p, s)
    decreases Distance(p, s)
  {
    WorkNotNegative(p, s);
    if Final(p, s) {
      run := [];
    } else {
      var t := SomeThreadAdvances(p, s);
      RigStepKeepsInv(p, s, t);
      WorkNotNegative(p, RigStep(p, s, t));
      var rest := CanAlwaysFinish(p, RigStep(p, s, t));
      run := [t] + rest;
      assert run[1..] == rest;
    }
  }

  lemma CapacityOneIsFull(s: State)
    requires Inv(0, s)
    ensures !s.ppc.PWindow? && !s.ppc.POffering?
  {
    Chain(0, s);
  }

  /** With a single slot the ring is always full: nothing is ever sent, so a rig with
      anything to send never finishes.  Two slots are enough by `CanAlwaysFinish`. */
  lemma {:induction false} CapacityOneNeverFinishes(p: Params, s: RigState, run: seq<Thread>)
    requires p.k == 0 && p.reps >= 1 && p.rounds >= 1 && RigInv(p, s)
    requires |s.ring.offered| == p.base
    ensures !Final(p, RigExec(p, s, run))
    decreases |run|
  {
    if run == [] {
      MessagesMonotone(1, p.rounds, p.reps);
    } else {
      CapacityOneIsFull(s.ring);
      RigStepKeepsInv(p, s, run[0]);
      CapacityOneNeverFinishes(p, RigStep(p, s, run[0]), run[1..]);
    }
  }
}
