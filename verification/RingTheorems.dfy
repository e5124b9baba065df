/**
 What the ring promises over whole runs: first-in first-out delivery, slot exclusion,
 linearization points of the negative answers, lasting positive answers, exact sizes.
 */
module RingTheorems {
  import opened Words
  import opened Layout
  import opened StoreBuffer
  import opened Ring
  import opened RingInvariant

  // ------------------------------------------------------------ start states

  /** Both processes outside any call, nothing buffered, and cursors in chain order: a fresh
      file or one left by earlier processes. */
  ghost predicate Start(k: nat, s: State) {
    && |s.mem| == FileWords(k)
    && s.pbuf == [] && s.cbuf == [] && s.ppc == PIdle && s.cpc == CIdle
    && 0 <= At(s.mem, HEAD_CACHE) <= At(s.mem, HEAD) <= At(s.mem, TAIL_CACHE) <= At(s.mem, TAIL)
    && At(s.mem, TAIL) <= At(s.mem, HEAD_CACHE) + Pow2(k) - 1
    && |s.offered| == At(s.mem, TAIL) && |s.consumed| == At(s.mem, HEAD)
    && s.reading == map[]
    && (forall i: nat :: i < |s.consumed| ==> s.consumed[i] == map[])
    && (forall i: nat :: i < |s.offered| ==> |s.offered[i]| == SLOT_WORDS)
    && (forall i: nat :: |s.consumed| <= i < |s.offered| ==> Payload(s.mem, i, k) == s.offered[i])
  }

  lemma StartSatisfiesInv(k: nat, s: State)
    requires Start(k, s)
    ensures Inv(k, s)
  {
    assert PView(s) == s.mem && CView(s) == s.mem;
  }

  /** The zero-filled file of `createAndLoadMappedFile` is a start state. */
  lemma ZeroFileIsStart(k: nat)
    ensures Start(k, State(seq(FileWords(k), _ => 0), [], [], PIdle, CIdle, [], [], map[], 0, 0))
  {
  }

  // ------------------------------------------------------------ bounded FIFO

  /** The abstract queue: payloads offered and not yet released. */
  function Queue(s: State): seq<seq<int>> {
    if |s.consumed| <= |s.offered| then s.offered[|s.consumed|..] else []
  }

  ghost predicate Enqueues(k: nat, s: State, s': State) {
    && s.ppc.POffering? && |Queue(s)| < Pow2(k) - 1
    && Queue(s') == Queue(s) + [Payload(PView(s), s.ppc.tail, k)]
  }

  ghost predicate Dequeues(s: State, s': State) {
    && s.cpc.CReleasing? && Queue(s) != [] && Queue(s') == Queue(s)[1..]
    && forall j: nat :: j in s.reading ==> j < |Queue(s)[0]| && s.reading[j] == Queue(s)[0][j]
  }

  lemma RoomToOffer(k: nat, s: State)
    requires Inv(k, s) && s.ppc.POffering?
    ensures |s.consumed| <= |s.offered| < |s.consumed| + Pow2(k) - 1
  {
    Chain(k, s);
  }

  lemma ElementToRelease(k: nat, s: State)
    requires Inv(k, s) && s.cpc.CReleasing?
    ensures |s.consumed| < |s.offered|
    ensures forall j: nat :: j in s.reading ==>
              j < |s.offered[|s.consumed|]| && s.reading[j] == s.offered[|s.consumed|][j]
  {
    Chain(k, s);
  }

  /** Every micro-step is a step of a FIFO queue of capacity N - 1, or does not touch it. */
  lemma RefinesBoundedFifo(k: nat, s: State, a: Action)
    requires Inv(k, s)
    ensures |Queue(s)| <= Pow2(k) - 1
    ensures var s' := Step(Unbounded(k), s, a);
            || Queue(s') == Queue(s)
            || (a == PAdvance && Enqueues(k, s, s'))
            || (a == CAdvance && Dequeues(s, s'))
  {
    hide Inv, Payload, PView, CView;
    Chain(k, s);
    var s' := Step(Unbounded(k), s, a);
    if a == PAdvance && s.ppc.POffering? {
      RoomToOffer(k, s);
      assert Queue(s') == Queue(s) + [Payload(PView(s), s.ppc.tail, k)];
    } else if a == CAdvance && s.cpc.CReleasing? {
      ElementToRelease(k, s);
      assert Queue(s') == Queue(s)[1..];
      assert Queue(s)[0] == s.offered[|s.consumed|];
    } else {
      assert s'.offered == s.offered && s'.consumed == s.consumed;
    }
  }

  /** A load between `poll` and release gets the offered word, for each of the eight words, and
      keeps what was loaded before. */
  lemma GetLoads(k: nat, s: State, j: nat)
    requires Inv(k, s) && s.cpc.CWindow? && j < SLOT_WORDS
    ensures |s.consumed| < |s.offered|
    ensures Step(Unbounded(k), s, CGet(j)) == s.(reading := s.reading[j := s.offered[|s.consumed|][j]])
  {
    WindowReadsOffered(k, s, j);
  }

  /** The consumer asks for word j while it holds element t. */
  predicate Gets(s: State, a: Action, t: nat, j: nat) {
    a == CGet(j) && j < SLOT_WORDS && s.cpc.CWindow? && |s.consumed| == t
  }

  /** The run asks for word j of element t. */
  predicate Asked(c: Config, s: State, run: seq<Action>, t: nat, j: nat)
    decreases |run|
  {
    run != [] && (Gets(Exec(c, s, run[..|run| - 1]), run[|run| - 1], t, j) || Asked(c, s, run[..|run| - 1], t, j))
  }

  /** Word j of element t has been loaded. */
  predicate Loaded(s: State, t: nat, j: nat) {
    (t < |s.consumed| && j in s.consumed[t]) || (t == |s.consumed| && j in s.reading)
  }

  lemma LoadedStep(c: Config, s: State, a: Action, t: nat, j: nat)
    ensures Loaded(Step(c, s, a), t, j) <==> Loaded(s, t, j) || Gets(s, a, t, j)
  {
  }

  /** Exactly the words asked for are loaded. */
  lemma {:induction false} AskedIsLoaded(c: Config, s0: State, run: seq<Action>, t: nat, j: nat)
    requires s0.reading == map[] && |s0.consumed| <= t
    ensures Loaded(Exec(c, s0, run), t, j) <==> Asked(c, s0, run, t, j)
    decreases |run|
  {
    hide Loaded, Gets, Step;
    if run == [] {
      NothingLoaded(s0, t, j);
    } else {
      var n := |run| - 1;
      AskedIsLoaded(c, s0, run[..n], t, j);
      ExecLast(c, s0, run);
      LoadedStep(c, Exec(c, s0, run[..n]), run[n], t, j);
    }
  }

  lemma NothingLoaded(s: State, t: nat, j: nat)
    requires s.reading == map[] && |s.consumed| <= t
    ensures !Loaded(s, t, j)
  {
  }

  /** In every reachable state of every interleaving, the n-th released element holds exactly the
      words that the consumer asked for, and each is that word of the n-th offered element;
      nothing is lost, duplicated, reordered or torn. */
  lemma FifoDelivery(k: nat, s0: State, run: seq<Action>)
    requires Start(k, s0)
    ensures var s := Exec(Unbounded(k), s0, run);
            && s0.offered <= s.offered && s0.consumed <= s.consumed
            && |s.consumed| <= |s.offered|
            && (forall i: nat, j: nat :: |s0.consumed| <= i < |s.consumed| ==>
                  (j in s.consumed[i] <==> Asked(Unbounded(k), s0, run, i, j)))
            && (forall i: nat, j: nat :: i < |s.consumed| && j in s.consumed[i] ==>
                  j < |s.offered[i]| && s.consumed[i][j] == s.offered[i][j])
  {
    StartSatisfiesInv(k, s0);
    ReachableInv(k, s0, run);
    HistoryGrows(Unbounded(k), s0, run);
    var s := Exec(Unbounded(k), s0, run);
    hide Start;
    forall i: nat, j: nat | |s0.consumed| <= i < |s.consumed|
      ensures j in s.consumed[i] <==> Asked(Unbounded(k), s0, run, i, j)
    {
      AskedIsLoaded(Unbounded(k), s0, run, i, j);
    }
  }

  lemma {:induction false} HistoryGrows(c: Config, s: State, run: seq<Action>)
    ensures s.offered <= Exec(c, s, run).offered && s.consumed <= Exec(c, s, run).consumed
    decreases |run|
  {
    if run != [] {
      var s' := Step(c, s, run[0]);
      assert s.offered <= s'.offered && s.consumed <= s'.consumed;
      HistoryGrows(c, s', run[1..]);
    }
  }

  /** Drains of the other side and locked updates leave every slot as the producer sees it. */
  lemma OthersLeaveSlots(k: nat, s: State, a: Action)
    requires Inv(k, s) && (a.CDrain? || a.PSync? || a.CSync?)
    ensures forall w: nat :: w >= ARRAY_BASE ==> At(PView(Step(Unbounded(k), s, a)), w) == At(PView(s), w)
  {
    var s' := Step(Unbounded(k), s, a);
    if s'.mem != s.mem {
      assert s'.pbuf == s.pbuf;
      ProducerViewUnmoved(s, s'.mem);
    }
  }

  lemma PutChangesOneWord(k: nat, s: State, j: nat, v: int)
    requires Inv(k, s) && s.ppc.PWindow? && j < SLOT_WORDS
    ensures Payload(PView(Step(Unbounded(k), s, PPut(j, v))), |s.offered|, k)
         == Payload(PView(s), |s.offered|, k)[j := v]
  {
    MaskedRange(|s.offered|, k);
    DrainedAppend(s.mem, s.pbuf, Store(SlotWord(|s.offered|, k, j), v));
  }

  /** A payload store changes exactly one word of the line about to be offered, and no other
      step changes it until the producer publishes the line. */
  lemma WindowHoldsWhatWasPut(k: nat, s: State, a: Action)
    requires Inv(k, s) && (s.ppc.PWindow? || s.ppc.POffering?) && a != PAdvance
    ensures var t, s' := |s.offered|, Step(Unbounded(k), s, a);
            && s'.offered == s.offered
            && Payload(PView(s'), t, k) ==
               if a.PPut? && a.j < SLOT_WORDS && s.ppc.PWindow? then Payload(PView(s), t, k)[a.j := a.value]
               else Payload(PView(s), t, k)
  {
    hide Inv;
    var t, s' := |s.offered|, Step(Unbounded(k), s, a);
    if a.PPut? && a.j < SLOT_WORDS && s.ppc.PWindow? {
      PutChangesOneWord(k, s, a.j, a.value);
    } else if a.CDrain? || a.PSync? || a.CSync? {
      OthersLeaveSlots(k, s, a);
      SamePayload(PView(s), PView(s'), t, k);
    }
  }

  /** The value of the last payload store of the run into word j of the slot of number t, by the
      window of t or of an earlier number on the same slot; before any, the word in the file. */
  function LastPut(c: Config, s: State, run: seq<Action>, t: nat, j: nat): int
    decreases |run|
  {
    if run == [] then At(PView(s), SlotWord(t, c.k, j))
    else
      var n := |run| - 1;
      var prev := Exec(c, s, run[..n]);
      if PutsWord(c, prev, run[n], t, j) then run[n].value else LastPut(c, s, run[..n], t, j)
  }

  predicate PutsWord(c: Config, s: State, a: Action, t: nat, j: nat) {
    a.PPut? && a.j == j && s.ppc.PWindow? && |s.offered| <= t && Masked(|s.offered|, c.k) == Masked(t, c.k)
  }

  lemma SlotWordPut(k: nat, s: State, i: nat, v: int, t: nat, j: nat)
    requires Inv(k, s) && s.ppc.PWindow? && i < SLOT_WORDS && j < SLOT_WORDS && |s.offered| <= t
    ensures At(PView(Step(Unbounded(k), s, PPut(i, v))), SlotWord(t, k, j))
         == if PutsWord(Unbounded(k), s, PPut(i, v), t, j) then v else At(PView(s), SlotWord(t, k, j))
  {
    MaskedRange(|s.offered|, k);
    DrainedAppend(s.mem, s.pbuf, Store(SlotWord(|s.offered|, k, i), v));
  }

  /** The slots as the producer sees them change by payload stores only. */
  lemma SlotWordStep(k: nat, s: State, a: Action, t: nat, j: nat)
    requires Inv(k, s) && j < SLOT_WORDS && |s.offered| <= t
    ensures At(PView(Step(Unbounded(k), s, a)), SlotWord(t, k, j))
         == if PutsWord(Unbounded(k), s, a, t, j) then a.value else At(PView(s), SlotWord(t, k, j))
  {
    hide Inv;
    var s' := Step(Unbounded(k), s, a);
    match a
    case PAdvance =>
      if s'.pbuf != s.pbuf {
        DrainedAppend(s.mem, s.pbuf, s'.pbuf[|s.pbuf|]);
      }
    case PPut(i, v) =>
      if s.ppc.PWindow? && i < SLOT_WORDS {
        SlotWordPut(k, s, i, v, t, j);
      }
    case CDrain => OthersLeaveSlots(k, s, a);
    case PSync(_) => OthersLeaveSlots(k, s, a);
    case CSync(_) => OthersLeaveSlots(k, s, a);
    case _ =>
  }

  /** Word j of element t: as offered, or, before that, as the producer sees the slot. */
  function WordOf(k: nat, s: State, t: nat, j: nat): int {
    if t < |s.offered| then (if j < |s.offered[t]| then s.offered[t][j] else 0)
    else At(PView(s), SlotWord(t, k, j))
  }

  lemma WordOfStep(k: nat, s: State, a: Action, t: nat, j: nat)
    requires Inv(k, s) && j < SLOT_WORDS
    ensures WordOf(k, Step(Unbounded(k), s, a), t, j)
         == if PutsWord(Unbounded(k), s, a, t, j) then a.value else WordOf(k, s, t, j)
  {
    hide Inv;
    if |s.offered| <= t {
      SlotWordStep(k, s, a, t, j);
      if a == PAdvance && s.ppc.POffering? && t == |s.offered| {
        OfferedSlot(k, s);
      }
    }
  }

  lemma OfferedSlot(k: nat, s: State)
    requires Inv(k, s) && s.ppc.POffering?
    ensures Step(Unbounded(k), s, PAdvance).offered == s.offered + [Payload(PView(s), |s.offered|, k)]
  {
  }

  /** Every word offered is the last one put there. */
  lemma {:induction false} OfferedWasPut(k: nat, s0: State, run: seq<Action>, t: nat, j: nat)
    requires Inv(k, s0) && j < SLOT_WORDS && |s0.offered| <= t
    ensures LastPut(Unbounded(k), s0, run, t, j) == WordOf(k, Exec(Unbounded(k), s0, run), t, j)
    decreases |run|
  {
    hide WordOf, Inv;
    if run == [] {
      StartWord(k, s0, t, j);
    } else {
      var n := |run| - 1;
      OfferedWasPut(k, s0, run[..n], t, j);
      ExecLast(Unbounded(k), s0, run);
      ReachableInv(k, s0, run[..n]);
      WordOfStep(k, Exec(Unbounded(k), s0, run[..n]), run[n], t, j);
    }
  }

  lemma StartWord(k: nat, s: State, t: nat, j: nat)
    requires |s.offered| <= t
    ensures WordOf(k, s, t, j) == At(PView(s), SlotWord(t, k, j))
  {
  }

  /** From put to get: each word the consumer asks for while it holds element t has arrived when
      it releases t, and is the last word the producer put there before it offered t. */
  lemma PutToGet(k: nat, s0: State, run: seq<Action>, t: nat, j: nat)
    requires Start(k, s0) && |s0.offered| <= t
    ensures var s := Exec(Unbounded(k), s0, run);
            t < |s.consumed| ==>
              && (j in s.consumed[t] <==> Asked(Unbounded(k), s0, run, t, j))
              && (j in s.consumed[t] ==> s.consumed[t][j] == LastPut(Unbounded(k), s0, run, t, j))
  {
    StartSatisfiesInv(k, s0);
    ReachableInv(k, s0, run);
    AskedIsLoaded(Unbounded(k), s0, run, t, j);
    var s := Exec(Unbounded(k), s0, run);
    if t < |s.consumed| && j in s.consumed[t] {
      OfferedWasPut(k, s0, run, t, j);
    }
  }

  // ---------------------------------------------------------- slot exclusion

  /** No buffered payload store aims at the oldest unreleased slot. */
  lemma {:induction false} BufferedStoresMiss(
      m: seq<int>, buf: seq<Store>, k: nat, head: int, count: nat, offered: seq<seq<int>>)
    requires ProducerChain(m, buf, k, head, count, offered) && head <= count < At(m, TAIL)
    ensures forall st <- buf, j: nat :: j < SLOT_WORDS ==> st.addr != SlotWord(count, k, j)
    decreases |buf|
  {
    if buf != [] {
      MaskedDistinct(At(m, TAIL), count, k);
      BufferedStoresMiss(Write(m, buf[0]), buf[1..], k, head, count, offered);
      assert buf == [buf[0]] + buf[1..];
    }
  }

  /** While the consumer may read a slot, the producer neither holds it nor has an undrained
      store to it. */
  lemma SlotExclusion(k: nat, s: State)
    requires Inv(k, s) && (s.cpc.CWindow? || s.cpc.CReleasing?)
    ensures forall st <- s.pbuf, j: nat :: j < SLOT_WORDS ==> st.addr != SlotWord(|s.consumed|, k, j)
    ensures s.ppc.PWindow? || s.ppc.POffering? ==> Masked(|s.offered|, k) != Masked(|s.consumed|, k)
  {
    Chain(k, s);
    BufferedStoresMiss(s.mem, s.pbuf, k, At(s.mem, HEAD), |s.consumed|, s.offered);
    if s.ppc.PWindow? || s.ppc.POffering? {
      MaskedDistinct(|s.offered|, |s.consumed|, k);
    }
  }

  // ---------------------------------------------------- linearization points

  lemma {:induction false} ExecLast(c: Config, s: State, run: seq<Action>)
    requires run != []
    ensures Exec(c, s, run) == Step(c, Exec(c, s, run[..|run| - 1]), run[|run| - 1])
    decreases |run|
  {
    if |run| == 1 {
      assert run[1..] == [] && run[..0] == [];
    } else {
      assert run[1..][..|run| - 2] == run[..|run| - 1][1..];
      ExecLast(c, Step(c, s, run[0]), run[1..]);
    }
  }

  predicate RefreshesHead(s: State) {
    s.ppc.PSetCache? || s.ppc.PRetest?
  }

  predicate RefreshesTail(s: State) {
    s.cpc.CSetCache? || s.cpc.CRetest?
  }

  /** The refresh under way at the end of the run began with step i, its load of the head. */
  ghost predicate ReadsHeadAt(c: Config, s: State, run: seq<Action>, i: nat) {
    && i < |run| && run[i] == PAdvance && Exec(c, s, run[..i]).ppc.PLoadHead?
    && (forall j :: i < j <= |run| ==> RefreshesHead(Exec(c, s, run[..j])))
  }

  ghost predicate ReadsTailAt(c: Config, s: State, run: seq<Action>, i: nat) {
    && i < |run| && run[i] == CAdvance && Exec(c, s, run[..i]).cpc.CLoadTail?
    && (forall j :: i < j <= |run| ==> RefreshesTail(Exec(c, s, run[..j])))
  }

  /** Elements offered and not visibly released: what the producer's answers are about. */
  function Held(s: State): int {
    |s.offered| - At(s.mem, HEAD)
  }

  /** Elements visible and not released: what the consumer's answers are about. */
  function Visible(s: State): int {
    At(s.mem, TAIL) - |s.consumed|
  }

  /** A `preOffer` touches the consumer's word only when its cached head shows no room, and a
      `poll` the producer's word only when its cached tail shows no element. */
  lemma RefreshOnlyWhenNeeded(k: nat, s: State)
    requires Inv(k, s)
    ensures s.ppc.PTest? ==>
              Step(Unbounded(k), s, PAdvance).ppc
              == if |s.offered| - At(PView(s), HEAD_CACHE) < Pow2(k) - 1 then PWindow(|s.offered|)
                 else PLoadHead(|s.offered|)
    ensures s.cpc.CTest? ==>
              Step(Unbounded(k), s, CAdvance).cpc
              == if |s.consumed| < At(CView(s), TAIL_CACHE) then CWindow(|s.consumed|) else CLoadTail(|s.consumed|)
  {
    Chain(k, s);
    FullTestExact(k, s);
    EmptyTestExact(k, s);
  }

  /** Only the load of the head starts a refresh, and nothing changes what it recorded. */
  lemma RefreshBegins(k: nat, s: State, a: Action)
    requires RefreshesHead(Step(Unbounded(k), s, a))
    ensures var s' := Step(Unbounded(k), s, a);
            || (a == PAdvance && s.ppc.PLoadHead? && s'.heldAtRead == Held(s))
            || (RefreshesHead(s) && s'.heldAtRead == s.heldAtRead)
  {
  }

  lemma TailRefreshBegins(k: nat, s: State, a: Action)
    requires RefreshesTail(Step(Unbounded(k), s, a))
    ensures var s' := Step(Unbounded(k), s, a);
            && s'.consumed == s.consumed
            && (|| (a == CAdvance && s.cpc.CLoadTail? && s'.visibleAtRead == Visible(s))
                || (RefreshesTail(s) && s'.visibleAtRead == s.visibleAtRead))
  {
  }

  lemma {:induction false} HeadWasRead(k: nat, s: State, run: seq<Action>) returns (i: nat)
    requires s.ppc == PIdle && RefreshesHead(Exec(Unbounded(k), s, run))
    ensures ReadsHeadAt(Unbounded(k), s, run, i)
    ensures Exec(Unbounded(k), s, run).heldAtRead == Held(Exec(Unbounded(k), s, run[..i]))
    decreases |run|
  {
    var n := |run| - 1;
    ExecLast(Unbounded(k), s, run);
    var prev := Exec(Unbounded(k), s, run[..n]);
    RefreshBegins(k, prev, run[n]);
    assert run[..n + 1] == run;
    if run[n] == PAdvance && prev.ppc.PLoadHead? {
      i := n;
    } else {
      i := HeadWasRead(k, s, run[..n]);
      assert forall j :: 0 <= j <= n ==> run[..n][..j] == run[..j];
    }
  }

  lemma {:induction false} TailWasRead(k: nat, s: State, run: seq<Action>) returns (i: nat)
    requires s.cpc == CIdle && RefreshesTail(Exec(Unbounded(k), s, run))
    ensures ReadsTailAt(Unbounded(k), s, run, i)
    ensures Exec(Unbounded(k), s, run).visibleAtRead == Visible(Exec(Unbounded(k), s, run[..i]))
    ensures Exec(Unbounded(k), s, run).consumed == Exec(Unbounded(k), s, run[..i]).consumed
    decreases |run|
  {
    var n := |run| - 1;
    ExecLast(Unbounded(k), s, run);
    var prev := Exec(Unbounded(k), s, run[..n]);
    TailRefreshBegins(k, prev, run[n]);
    assert run[..n + 1] == run;
    if run[n] == CAdvance && prev.cpc.CLoadTail? {
      i := n;
    } else {
      i := TailWasRead(k, s, run[..n]);
      assert forall j :: 0 <= j <= n ==> run[..n][..j] == run[..j];
    }
  }

  /** A `preOffer` answers false exactly when N - 1 elements were held at the instant this same
      call read the head. */
  lemma FalsePreOfferLinearizes(k: nat, s: State, run: seq<Action>) returns (i: nat)
    requires Inv(k, s) && s.ppc == PIdle && Exec(Unbounded(k), s, run).ppc.PRetest?
    ensures ReadsHeadAt(Unbounded(k), s, run, i)
    ensures Step(Unbounded(k), Exec(Unbounded(k), s, run), PAdvance).ppc == PIdle
       <==> Held(Exec(Unbounded(k), s, run[..i])) == Pow2(k) - 1
  {
    ReachableInv(k, s, run);
    FullTestExact(k, Exec(Unbounded(k), s, run));
    i := HeadWasRead(k, s, run);
  }

  /** A `poll` answers null exactly when no unreleased element was visible at the instant this
      same call read the tail. */
  lemma NullPollLinearizes(k: nat, s: State, run: seq<Action>) returns (i: nat)
    requires Inv(k, s) && s.cpc == CIdle && Exec(Unbounded(k), s, run).cpc.CRetest?
    ensures ReadsTailAt(Unbounded(k), s, run, i)
    ensures Step(Unbounded(k), Exec(Unbounded(k), s, run), CAdvance).cpc == CIdle
       <==> Visible(Exec(Unbounded(k), s, run[..i])) == 0
  {
    ReachableInv(k, s, run);
    EmptyTestExact(k, Exec(Unbounded(k), s, run));
    i := TailWasRead(k, s, run);
  }

  lemma {:induction false} VisibleTailRises(k: nat, s: State, run: seq<Action>)
    requires Inv(k, s)
    ensures At(s.mem, TAIL) <= At(Exec(Unbounded(k), s, run).mem, TAIL)
    decreases |run|
  {
    hide Inv;
    if run != [] {
      if run[0] != CAdvance {
        TailNeverFalls(k, s, run[0]);
      }
      StepKeepsInv(k, s, run[0]);
      VisibleTailRises(k, Step(Unbounded(k), s, run[0]), run[1..]);
    }
  }

  lemma {:induction false} ExecSplits(c: Config, s: State, run: seq<Action>, i: nat)
    requires i <= |run|
    ensures Exec(c, s, run) == Exec(c, Exec(c, s, run[..i]), run[i..])
    decreases i
  {
    if i > 0 {
      assert run[..i][1..] == run[1..][..i - 1];
      ExecSplits(c, Step(c, s, run[0]), run[1..], i - 1);
    }
  }

  /** A consumer that loads no payload word releases its elements unread. */
  lemma {:induction false} ReleasedUnread(c: Config, s: State, run: seq<Action>)
    requires s.reading == map[] && forall a <- run :: !a.CGet?
    ensures var e := Exec(c, s, run);
            && e.reading == map[] && s.consumed <= e.consumed
            && (forall m :: |s.consumed| <= m < |e.consumed| ==> e.consumed[m] == map[])
    decreases |run|
  {
    if run != [] {
      assert run[0] in run;
      ReleasedUnread(c, Step(c, s, run[0]), run[1..]);
    }
  }

  /** `clear` loads no payload and returns on a null `poll`.  With a live producer, everything
      visible at its last read of the tail, or at any instant before, has then been discarded
      unread, and nothing else. */
  lemma ClearDiscardsVisible(k: nat, s: State, run: seq<Action>) returns (i: nat)
    requires Inv(k, s) && s.cpc == CIdle && s.reading == map[] && forall a <- run :: !a.CGet?
    requires Exec(Unbounded(k), s, run).cpc.CRetest?
    requires Step(Unbounded(k), Exec(Unbounded(k), s, run), CAdvance).cpc == CIdle
    ensures ReadsTailAt(Unbounded(k), s, run, i)
    ensures var e := Exec(Unbounded(k), s, run);
            && |e.consumed| == At(Exec(Unbounded(k), s, run[..i]).mem, TAIL)
            && (forall j :: 0 <= j <= i ==> At(Exec(Unbounded(k), s, run[..j]).mem, TAIL) <= |e.consumed|)
            && (forall m :: |s.consumed| <= m < |e.consumed| ==> e.consumed[m] == map[])
  {
    i := NullPollLinearizes(k, s, run);
    var j := TailWasRead(k, s, run);
    assert i == j by {
      assert j < i ==> RefreshesTail(Exec(Unbounded(k), s, run[..i]));
      assert i < j ==> RefreshesTail(Exec(Unbounded(k), s, run[..j]));
    }
    ReleasedUnread(Unbounded(k), s, run);
    forall j | 0 <= j <= i
      ensures At(Exec(Unbounded(k), s, run[..j]).mem, TAIL) <= At(Exec(Unbounded(k), s, run[..i]).mem, TAIL)
    {
      ReachableInv(k, s, run[..j]);
      ExecSplits(Unbounded(k), s, run[..i], j);
      assert run[..i][..j] == run[..j];
      VisibleTailRises(k, Exec(Unbounded(k), s, run[..j]), run[..i][j..]);
    }
  }

  predicate ConsumerAction(a: Action) {
    a.CAdvance? || a.CGet? || a.CRelease? || a.CDrain? || a.CSync?
  }

  predicate ProducerAction(a: Action) {
    a.PAdvance? || a.PPut? || a.POffer? || a.PDrain? || a.PSync?
  }

  predicate LeavesProducer(run: seq<Action>) {
    forall a <- run :: ConsumerAction(a) || a == PDrain
  }

  predicate LeavesConsumer(run: seq<Action>) {
    forall a <- run :: ProducerAction(a) || a == CDrain
  }

  /** Steps of the other side and drains leave a side's program counter and its own count. */
  lemma {:induction false} OthersLeaveProducer(k: nat, s: State, run: seq<Action>)
    requires LeavesProducer(run)
    ensures var e := Exec(Unbounded(k), s, run); e.ppc == s.ppc && e.offered == s.offered
    decreases |run|
  {
    if run != [] {
      assert run[0] in run;
      OthersLeaveProducer(k, Step(Unbounded(k), s, run[0]), run[1..]);
    }
  }

  lemma {:induction false} OthersLeaveConsumer(k: nat, s: State, run: seq<Action>)
    requires LeavesConsumer(run)
    ensures var e := Exec(Unbounded(k), s, run); e.cpc == s.cpc && e.consumed == s.consumed
    decreases |run|
  {
    if run != [] {
      assert run[0] in run;
      OthersLeaveConsumer(k, Step(Unbounded(k), s, run[0]), run[1..]);
    }
  }

  /** A true `preOffer` stays true, whatever the consumer does and whatever drains before the
      producer acts: fewer than N - 1 elements stay held. */
  lemma TruePreOfferLasts(k: nat, s: State, run: seq<Action>)
    requires Inv(k, s) && s.ppc.PWindow? && LeavesProducer(run)
    ensures var e := Exec(Unbounded(k), s, run);
            e.ppc == s.ppc && e.offered == s.offered && Held(e) <= Pow2(k) - 2
  {
    OthersLeaveProducer(k, s, run);
    ReachableInv(k, s, run);
    Chain(k, Exec(Unbounded(k), s, run));
  }

  /** A non-null `poll` stays valid until the consumer releases: its element stays visible. */
  lemma NonNullPollLasts(k: nat, s: State, run: seq<Action>)
    requires Inv(k, s) && s.cpc.CWindow? && LeavesConsumer(run)
    ensures var e := Exec(Unbounded(k), s, run);
            e.cpc == s.cpc && e.consumed == s.consumed && Visible(e) >= 1
  {
    OthersLeaveConsumer(k, s, run);
    ReachableInv(k, s, run);
    Chain(k, Exec(Unbounded(k), s, run));
  }

  // ------------------------------------------------------------------- size

  /** What each side reads of both cursors, and the range of its count. */
  lemma OwnCursors(k: nat, s: State)
    requires Inv(k, s)
    ensures At(PView(s), TAIL) == |s.offered| && At(PView(s), HEAD) == At(s.mem, HEAD)
    ensures At(CView(s), HEAD) == |s.consumed| && At(CView(s), TAIL) == At(s.mem, TAIL)
    ensures 0 <= Held(s) <= Pow2(k) - 1 && 0 <= Visible(s) <= Pow2(k) - 1
  {
    Chain(k, s);
  }

  /** `size` called by the producer: between its two loads only the other side and the buffers
      move.  Whichever word is loaded first, the answer is the number held at the instant the
      head is read. */
  lemma ProducerSizeExact(k: nat, s: State, run: seq<Action>)
    requires Inv(k, s) && LeavesProducer(run)
    ensures var c, e := Unbounded(k), Exec(Unbounded(k), s, run);
            && SizeAnswer(c, At(PView(s), TAIL), At(PView(e), HEAD)) == Held(e) <= Pow2(k) - 1
            && SizeAnswer(c, At(PView(e), TAIL), At(PView(s), HEAD)) == Held(s) <= Pow2(k) - 1
  {
    hide Inv;
    OthersLeaveProducer(k, s, run);
    ReachableInv(k, s, run);
    var e := Exec(Unbounded(k), s, run);
    OwnCursors(k, s);
    OwnCursors(k, e);
    MaskedSmall(Held(s), k);
    MaskedSmall(Held(e), k);
  }

  /** `size` called by the consumer is exact at the instant the tail is read. */
  lemma ConsumerSizeExact(k: nat, s: State, run: seq<Action>)
    requires Inv(k, s) && LeavesConsumer(run)
    ensures var c, e := Unbounded(k), Exec(Unbounded(k), s, run);
            && SizeAnswer(c, At(CView(s), TAIL), At(CView(e), HEAD)) == Visible(s) <= Pow2(k) - 1
            && SizeAnswer(c, At(CView(e), TAIL), At(CView(s), HEAD)) == Visible(e) <= Pow2(k) - 1
  {
    hide Inv;
    OthersLeaveConsumer(k, s, run);
    ReachableInv(k, s, run);
    var e := Exec(Unbounded(k), s, run);
    OwnCursors(k, s);
    OwnCursors(k, e);
    MaskedSmall(Visible(s), k);
    MaskedSmall(Visible(e), k);
  }

  ghost predicate SeesElement(s: State) {
    && |s.consumed| < At(s.mem, TAIL)
    && (s.cpc.CSetCache? ==> s.cpc.currentHead < s.cpc.tail)
    && (s.cpc.CRetest? ==> |s.consumed| < At(CView(s), TAIL_CACHE))
  }

  /** Outside its own calls the consumer keeps its cached tail, and the visible tail never
      falls. */
  lemma TailNeverFalls(k: nat, s: State, a: Action)
    requires Inv(k, s) && a != CAdvance
    ensures var s' := Step(Unbounded(k), s, a);
            At(s.mem, TAIL) <= At(s'.mem, TAIL) && At(CView(s'), TAIL_CACHE) == At(CView(s), TAIL_CACHE)
  {
    Chain(k, s);
    var s' := Step(Unbounded(k), s, a);
    match a
    case PDrain => if s.pbuf != [] { ConsumerViewUnmoved(s, s'.mem); }
    case PSync(_) => ConsumerViewUnmoved(s, s'.mem);
    case CSync(_) => ConsumerViewUnmoved(s, s'.mem);
    case _ =>
  }

  lemma SeesElementLasts(k: nat, s: State, a: Action)
    requires Inv(k, s) && SeesElement(s) && a != CRelease && !s.cpc.CReleasing?
    ensures SeesElement(Step(Unbounded(k), s, a)) && !Step(Unbounded(k), s, a).cpc.CReleasing?
    ensures s.cpc.CRetest? && a == CAdvance ==> Step(Unbounded(k), s, a).cpc.CWindow?
  {
    if a == CAdvance {
      Chain(k, s);
      EmptyTestExact(k, s);
      if s.cpc.CSetCache? {
        DrainedAppend(s.mem, s.cbuf, Store(TAIL_CACHE, s.cpc.tail));
      }
    } else {
      TailNeverFalls(k, s, a);
    }
  }

  /** A consumer that saw a non-empty queue never gets null from its next `poll`. */
  lemma {:induction false} NonEmptyMeansPollSucceeds(k: nat, s: State, run: seq<Action>)
    requires Inv(k, s) && SeesElement(s) && !s.cpc.CReleasing?
    requires forall i :: 0 <= i < |run| ==> run[i] != CRelease
    ensures var e := Exec(Unbounded(k), s, run);
            e.cpc.CRetest? ==> Step(Unbounded(k), e, CAdvance).cpc.CWindow?
    decreases |run|
  {
    if run == [] {
      SeesElementLasts(k, s, CAdvance);
    } else {
      SeesElementLasts(k, s, run[0]);
      StepKeepsInv(k, s, run[0]);
      NonEmptyMeansPollSucceeds(k, Step(Unbounded(k), s, run[0]), run[1..]);
    }
  }
}
