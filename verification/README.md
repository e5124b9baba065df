# Verification model of the shared-memory SPSC queue and of the vendored Catch runner

The repository passes 64-byte cache lines between two processes, in C++ or Java, through a
ring in a memory-mapped file, without locks. It also carries Catch 1.2.1, whose runner
re-runs each test until every section and every generator value has been covered. This
project models both in Dafny and proves what they promise over all inputs, all runs and all
interleavings. `dafny verify dfyconfig.toml` checks it.

## What is modelled

| file | models |
|---|---|
| `Words.dfy` | powers of two, bitwise AND with a mask on two's complement numbers, Java's wrapping `long` |
| `Layout.dfy` | byte positions of header and slots, fast and slow slot address, file sizes |
| `StoreBuffer.dfy` | the memory the code relies on: each processor has a FIFO store buffer |
| `Ring.dfy` | producer and consumer as a transition system, one step per load, store and drain |
| `RingInvariant.dfy` | the invariant of that system and its proof, step by step |
| `RingTheorems.dfy` | FIFO delivery from put to get, slot exclusion, linearization points, `clear`, sizes |
| `WrapRefinement.dfy` | the ring with cursors that wrap at 2^63 runs in lock step with the unbounded ring |
| `Rig.dfy`, `RigTheorems.dfy` | the source and sink rigs with their handshake, on top of the ring |
| `RigFairness.dfy` | every fair infinite run of the rigs finishes |
| `DeployedRig.dfy` | the rigs with wrapping cursors and a byte sync word, each side in either language |
| `SyncCell.dfy` | the sync word byte by byte, under C++ 64-bit and Java 32-bit accesses |
| `SpscQueue.dfy` | the queue class over an array of file words |
| `QueueTests.dfy` | the repository's queue test, proved to pass for every capacity |
| `Sections.dfy`, `SectionTracker.dfy` | Catch's section tracker and one run of a test |
| `Generators.dfy` | Catch's generators: registration and odometer |
| `Runner.dfy` | the nested loops of Catch's `runTest`, over sections and over generators |
| `TestSpec.dfy`, `SpecParser.dfy` | Catch's test-spec patterns and parser |
| `SpecSyntax.dfy` | test specs as written on the command line: bare names, `~`, `exclude:`, several arguments |

## Assumptions

- Memory is total store order: stores of one processor drain in program order, a load sees
  the youngest own buffered store, a locked instruction waits for its own buffer.
  `putInt64Ordered` is a compiler fence and a plain store, so the code relies on this.
- The capacity is a power of two, 2^k. The ring theorems hold for every k; a rig needs k >= 1
  to finish, and `RigTheorems.CapacityOneNeverFinishes` shows that this is needed.
- A client calls `offer` once per true `preOffer` and `releaseCacheLine` once per non-null
  `poll`. `peek` refreshes no cursor and licenses no release; `testIncTail` is not a client step.
- In a fair run source, sink and both store buffers take a step again and again, in any
  order; nothing bounds how long one of them may be kept waiting.
- A rig starts with both sides constructed, the ring empty and the sync word zero. A sink that
  attaches later discards what it finds, through `clear`.
- Reading `offered`, `consumed`, `heldAtRead` and the like decides nothing; they are history
  used to state the theorems.

## Where the code does not do what it says

- The role gate of the C++ constructor uses `&&` where Java uses `&`: a C++ process that only
  produces also empties the queue when it attaches (`SpscQueue.GatesAgree` gives the exact cases,
  and the constructor what follows from them).
- `peek` compares cursors by magnitude and misses elements while the queue straddles an odd
  multiple of 2^63 (`SpscQueue.PeekExact` gives the exact cases, `SpscQueue.PeekMissesAtWrap`
  an example).
- The Java file size is an `int` and overflows for capacities above 2^24
  (`Layout.JavaFileHoldsRing`). The C++ file size uses the line size the processor reports and is
  too small for the ring when that is below 64 (`Layout.CppFileHoldsRing`).
- C++ and Java agree on the sync word only while its upper half is zero
  (`SyncCell.AgreementNeedsZeroUpper`, with an instance in `SyncCell.UpperHalfDisagrees`).
- Sections and generators combine only in tests that have no sections, or whose generators have
  one combination of values: then every leaf is run with every combination
  (`Runner.CombineExactly`).  In all other tests the sections are covered with every generator at
  its first value, and the runs for the further values enter no section
  (`Runner.RunContext.RunTest`; `Runner.SecondValueMissesSection` is an instance).
- A generator of size 0 does not shorten the loop: it counts as one with 2^64 values
  (`Generators.Radix`).  This is the number of runs, not of values: evaluating such a generator
  throws, which is outside this model.
- The test-spec parser never looks at the first character of a tag or quoted name, and knows no
  escapes; exactly which specs survive printing and parsing is `SpecParser.SpecRoundTripExactly`.

Two lemmas say more than the code can meet: `SpscQueue.SizeFitsInt` reaches capacities beyond any
that a buffer class can have, and `Layout.FastAddressIsSlowAddress` negative sequence numbers,
which the only caller of the slow form does not pass.

## Model

| member | source | states |
|---|---|---|
| `Words.MaskIsRemainder` | src/main/cpp/SpscMemoryMappedCacheLineQueue.h:199-202 | the AND with capacity - 1 is the non-negative remainder modulo the capacity, for every integer and every power of two |
| `Words.MaskedWrap` | src/main/java/vn/queue/SpscMemoryMappedCacheLineQueue.java:249-251 | a mask of at most 64 bits gives the same result on a wrapped cursor as on the unbounded one |
| `Layout.FastAddressIsSlowAddress` | src/main/cpp/SpscMemoryMappedCacheLineQueue.h:161-210 | masked and modulus addresses are equal if and only if the sequence number is non-negative or a multiple of the capacity |
| `Layout.SlotsAreDisjoint` | src/main/java/vn/queue/SpscMemoryMappedCacheLineQueue.java:58-67 | any two of N consecutive sequence numbers own disjoint 64-byte slots, clear of all header words |
| `Layout.JavaFileHoldsRing` | src/main/java/vn/queue/QueueMemoryMappedBuffer.java:75-83 | every slot lies inside the Java file if and only if the capacity is at most 2^24 |
| `Layout.CppFileHoldsRing` | src/main/cpp/QueueMemoryMappedBuffer.cpp:21-28 | with capacity 4096 every slot lies inside the C++ file if and only if the reported line size is at least 64 |
| `StoreBuffer.DrainedElsewhere` | src/main/cpp/Atomic64.h:129-150 | a load of a word the own buffer never writes reads the shared file |
| `RingInvariant.Chain` | src/main/cpp/SpscMemoryMappedCacheLineQueue.h:69-117 | headCache <= head <= released <= tailCache <= tail <= offered <= headCache + N - 1 over visible and buffered cursors, in every reachable state |
| `RingInvariant.FullTestExact` | src/main/cpp/SpscMemoryMappedCacheLineQueue.h:69-80 | the masked full test on a stale head says exactly that N - 1 sequence numbers lie between the cached head and the tail |
| `RingInvariant.EmptyTestExact` | src/main/cpp/SpscMemoryMappedCacheLineQueue.h:95-108 | the masked empty test on a never positive difference says exactly that head and cached tail are equal |
| `RingInvariant.StepKeepsInv` | src/main/cpp/SpscMemoryMappedCacheLineQueue.h:69-117 | every producer, consumer and drain step keeps the ring invariant |
| `RingInvariant.ReachableInv` | src/main/cpp/SpscMemoryMappedCacheLineQueue.h:69-117 | the invariant holds after every run of every interleaving |
| `RingInvariant.WindowReadsOffered` | src/main/cpp/SpscMemoryMappedCacheLineQueue.h:95-125 | between poll and release every word loaded is that word of the payload offered under the same number |
| `RingTheorems.StartSatisfiesInv` | src/main/cpp/SpscMemoryMappedCacheLineQueue.h:35-52 | any file whose cursors are in order, fresh or left by earlier processes, starts inside the invariant |
| `RingTheorems.ZeroFileIsStart` | src/main/cpp/QueueMemoryMappedBuffer.cpp:50-57 | the zero-filled new file is such a start |
| `RingTheorems.RefinesBoundedFifo` | src/main/cpp/SpscMemoryMappedCacheLineQueue.h:69-117 | each micro-step is an enqueue of the producer's line with room left, a dequeue of the oldest payload, or leaves the abstract queue of capacity N - 1 alone |
| `RingTheorems.GetLoads` | src/main/cpp/CacheLine.h:55-66 | between poll and release each of the eight words, when asked for, is loaded as it was offered, and nothing else changes |
| `RingTheorems.AskedIsLoaded` | src/main/cpp/SpscMemoryMappedCacheLineQueue.h:95-125 | over any run the words loaded of an element are exactly those the consumer asked for while it held it |
| `RingTheorems.FifoDelivery` | src/main/cpp/SpscMemoryMappedCacheLineQueue.h:69-117 | over any run the n-th released element holds exactly the words asked for, each equal to that word of the n-th offered element, and released never exceeds offered |
| `RingTheorems.WindowHoldsWhatWasPut` | src/main/cpp/CacheLine.h:93-116 | a payload store changes exactly its word of the line to be offered, and nothing else changes that line before it is published |
| `RingTheorems.OfferedWasPut` | src/main/cpp/SpscMemoryMappedCacheLineQueue.h:69-88 | over any run each word of each offered line is the last value put there before the offer, in this or an earlier lap of the slot, or what the file held |
| `RingTheorems.PutToGet` | src/main/cpp/SpscMemoryMappedCacheLineQueue.h:69-117 | over any run each word the consumer asks for of an element has arrived at its release, and is the last word the producer put there before offering it |
| `RingTheorems.SlotExclusion` | src/main/cpp/SpscMemoryMappedCacheLineQueue.h:69-117 | while the consumer may read a slot, the producer does not hold it and has no undrained store to it |
| `RingTheorems.FalsePreOfferLinearizes` | src/main/cpp/SpscMemoryMappedCacheLineQueue.h:69-80 | every preOffer that refreshes has one load of the head in this same call, and answers false if and only if N - 1 elements were held at that instant |
| `RingTheorems.NullPollLinearizes` | src/main/cpp/SpscMemoryMappedCacheLineQueue.h:95-108 | every poll that refreshes has one load of the tail in this same call, and answers null if and only if no unreleased element was visible at that instant |
| `RingTheorems.ClearDiscardsVisible` | src/main/cpp/SpscMemoryMappedCacheLineQueue.h:150-153 | when clear returns, with the producer still running, it has released exactly the elements visible at its last load of the tail, unread, and so all that were visible at any earlier instant |
| `RingTheorems.RefreshOnlyWhenNeeded` | src/main/cpp/SpscMemoryMappedCacheLineQueue.h:69-108 | preOffer loads the consumer's cursor only when its cached head leaves no room, and poll the producer's only when its cached tail leaves no element |
| `RingTheorems.TruePreOfferLasts` | src/main/cpp/SpscMemoryMappedCacheLineQueue.h:69-80 | a true preOffer keeps its room under any steps of the consumer and any drains |
| `RingTheorems.NonNullPollLasts` | src/main/cpp/SpscMemoryMappedCacheLineQueue.h:95-108 | a non-null poll keeps its element under any steps of the producer and any drains |
| `RingTheorems.ProducerSizeExact` | src/main/cpp/SpscMemoryMappedCacheLineQueue.h:130-141 | size called by the producer is the number held at the instant the head is read, in 0..N-1, whatever the consumer does between its two loads and in either order of them |
| `RingTheorems.ConsumerSizeExact` | src/main/cpp/SpscMemoryMappedCacheLineQueue.h:130-141 | size called by the consumer is the number visible at the instant the tail is read, in 0..N-1, whatever the producer does between its two loads and in either order of them |
| `RingTheorems.NonEmptyMeansPollSucceeds` | src/main/cpp/SpscMemoryMappedCacheLineQueue.h:95-141 | a consumer that saw the queue non-empty never gets null from its next poll |
| `WrapRefinement.WrappingRunCommutes` | src/main/java/vn/queue/SpscMemoryMappedCacheLineQueue.java:105-146 | on runs of any length the ring with wrapping cursors takes the same decisions and reaches the wrapped image of the unbounded ring's state |
| `WrapRefinement.WrappingFifoDelivery` | src/main/java/vn/queue/SpscMemoryMappedCacheLineQueue.java:105-177 | first-in first-out delivery of exactly the words asked for, for Java's wrapping cursors |
| `WrapRefinement.WrappingProducerSize` | src/main/java/vn/queue/SpscMemoryMappedCacheLineQueue.java:217-229 | size and isEmpty on wrapping cursors give the producer the same exact answers |
| `WrapRefinement.WrappingConsumerSize` | src/main/java/vn/queue/SpscMemoryMappedCacheLineQueue.java:217-229 | size and isEmpty on wrapping cursors give the consumer the same exact answers |
| `Rig.RigStepKeepsInv` | src/main/cpp/IPCQueueMain.cpp:112-188 | every step of source, sink or a draining buffer keeps the combined handshake, transcript and ring invariant |
| `RigTheorems.SyncCountsUp` | src/main/cpp/IPCQueueMain.cpp:182-188 | the sync word only steps by one, by the side whose turn it is, and reaches 3 * rounds exactly when the rig is finished |
| `RigTheorems.RoundsNeverMix` | src/main/cpp/IPCQueueMain.cpp:112-180 | at 3r + 2 the ring is empty and the sink has received exactly R, R-1, ..., 1 in round r |
| `RigTheorems.NoOutOfOrderErrors` | src/main/java/vn/event/MsgQueueSink.java:115-143 | the out-of-order counters of both languages stay zero in every reachable state |
| `RigTheorems.FinalMeansAllDelivered` | src/main/cpp/IPCQueueMain.cpp:79-89 | a finished rig has delivered all rounds * R messages in order and left the ring empty |
| `RigTheorems.WorkIsBounded` | src/main/cpp/IPCQueueMain.cpp:119-172 | the state changes of any run are at most the initial work plus nine for each false preOffer and null poll |
| `RigTheorems.RetriesAreCounted` | src/main/cpp/IPCQueueMain.cpp:119-162 | over any run the source's counter is the number of false preOffers and the sink's the number of null polls |
| `RigTheorems.WrongWordIsCounted` | src/main/cpp/IPCQueueMain.cpp:163-168 | in any state a loaded word other than the countdown raises the C++ error counter, and one other than Java expects raises Java's, which then expects its predecessor |
| `RigTheorems.NeverDeadlocked` | src/main/cpp/IPCQueueMain.cpp:121-188 | with drained buffers an unfinished rig has a side whose compare-and-swap matches or whose call finds room or an element |
| `RigTheorems.CanAlwaysFinish` | src/main/cpp/IPCQueueMain.cpp:79-89 | from every reachable state of every interleaving some continuation finishes the rig, within a stated number of steps |
| `RigFairness.FairRunFinishes` | src/main/cpp/IPCQueueMain.cpp:79-188 | every fair infinite interleaving of source, sink and store buffers reaches the end of all rounds from every reachable state, and stays there |
| `RigFairness.FairRunDelivers` | src/main/cpp/IPCQueueMain.cpp:112-180 | from some point on, every fair run from the start has delivered every message of every round in order and left the ring empty |
| `RigFairness.StepToward` | src/main/cpp/IPCQueueMain.cpp:121-188 | in every unfinished reachable state some thread's step is progress, and no step of another thread, spinning included, undoes progress or changes whose step it is |
| `RigTheorems.CapacityOneNeverFinishes` | src/main/cpp/SpscMemoryMappedCacheLineQueue.h:69-80 | with one slot no run of a rig that has something to send finishes |
| `SyncCell.MixedRunIsOneWord` | src/main/java/vn/event/MsgQueueSink.java:53-77 | from a zero upper half any mix of C++ and Java stores and compare-and-swaps answers as one word and keeps the upper half zero |
| `SyncCell.AgreementNeedsZeroUpper` | src/main/cpp/CacheLine.h:118-122 | the two compare-and-swaps agree on every state number if and only if the upper half is zero or the lower half holds no state number |
| `SyncCell.UpperHalfDisagrees` | src/main/cpp/Atomic64.h:163-170 | a word with a set bit in the upper half that Java takes and C++ does not |
| `SyncCell.BytesTouched` | src/main/java/vn/event/MsgQueueSink.java:53-77 | from any word, Java accesses leave the upper half alone, C++ ones that write zero it, failed ones change nothing |
| `SyncCell.ResetAgrees` | src/main/cpp/IPCQueueMain.cpp:74-77 | the reset by a starting source makes the languages agree if and only if the source is C++ or the upper half was zero |
| `DeployedRig.DeployedRunCommutes` | src/main/cpp/IPCQueueMain.cpp:112-188 | for each pair of languages the rigs on wrapping cursors and a byte sync word run in lock step with the rigs on unbounded cursors and an integer |
| `DeployedRig.FairDeployedRunDelivers` | src/main/java/vn/event/MsgQueueSink.java:72-143 | for each pair of languages every fair run, on wrapping cursors and a byte sync word, comes to deliver every message of every round in order |
| `DeployedRig.DeployedRoundsNeverMix` | src/main/java/vn/event/MsgQueueSink.java:72-143 | for each pair of languages no message is ever out of order, and at 3r + 2 the sink has received exactly R, ..., 1 in round r |
| `SpscQueue.SpscMemoryMappedCacheLineQueue.constructor` | src/main/java/vn/queue/SpscMemoryMappedCacheLineQueue.java:58-76 | attaching in either language keeps the elements found in the file, or discards exactly those when that language's gate on the view mask clears |
| `SpscQueue.SpscMemoryMappedCacheLineQueue.PreOffer` | src/main/java/vn/queue/SpscMemoryMappedCacheLineQueue.java:105-115 | true if and only if fewer than N - 1 elements are held; aims the line at the slot after the last; refreshes the cached head exactly when it leaves no room; moves no element |
| `SpscQueue.SpscMemoryMappedCacheLineQueue.Offer` | src/main/java/vn/queue/SpscMemoryMappedCacheLineQueue.java:121-123 | appends the words of that slot to the contents |
| `SpscQueue.SpscMemoryMappedCacheLineQueue.Poll` | src/main/java/vn/queue/SpscMemoryMappedCacheLineQueue.java:136-146 | null if and only if empty; else the reused line covers exactly the oldest element; refreshes the cached tail exactly when it leaves no element |
| `SpscQueue.SpscMemoryMappedCacheLineQueue.ReleaseCacheLine` | src/main/java/vn/queue/SpscMemoryMappedCacheLineQueue.java:175-177 | removes the oldest element and nothing else |
| `SpscQueue.SpscMemoryMappedCacheLineQueue.Clear` | src/main/cpp/SpscMemoryMappedCacheLineQueue.h:150-153 | terminates, releases exactly the elements found, and ends with head = tailCache = tail |
| `SpscQueue.SpscMemoryMappedCacheLineQueue.Size` | src/main/java/vn/queue/SpscMemoryMappedCacheLineQueue.java:217-220 | the number of elements held, cast to a 32-bit int |
| `SpscQueue.SizeFitsInt` | src/main/cpp/SpscMemoryMappedCacheLineQueue.h:130-133 | the cast is exact if and only if fewer than 2^31 elements are held, so always up to capacity 2^31; beyond that the answer is negative |
| `SpscQueue.SpscMemoryMappedCacheLineQueue.Peek` | src/main/java/vn/queue/SpscMemoryMappedCacheLineQueue.java:185-193 | what the magnitude comparison answers, without moving anything |
| `SpscQueue.PeekExact` | src/main/java/vn/queue/SpscMemoryMappedCacheLineQueue.java:185-193 | peek answers non-null if and only if the queue holds an element and not: some boundary 2^63 + q * 2^64 lies above the head and not above the tail, with no cached tail between head and boundary |
| `SpscQueue.PeekRightAwayFromBoundaries` | src/main/java/vn/queue/SpscMemoryMappedCacheLineQueue.java:185-193 | peek is exact while no such boundary lies between head and tail, in particular until 2^63 elements were offered |
| `SpscQueue.PeekMissesAtWrap` | src/main/java/vn/queue/SpscMemoryMappedCacheLineQueue.java:185-193 | a one-element queue at the wrap that peek reports as empty |
| `SpscQueue.GatesAgree` | src/main/cpp/SpscMemoryMappedCacheLineQueue.h:48-51 | the C++ and Java role gates agree exactly for view masks that are zero or contain the consumer bit; a C++ producer clears and a Java producer does not |
| `SpscQueue.WindowStoreKeepsQueued` | src/main/cpp/CacheLine.h:113-116 | a store through a granted line changes one word of the slot to be offered and no queued element |
| `QueueTests.TestAddAndPurge` | src/main/cpp/testSpscMemoryMappedQueue.cpp:54-106 | every REQUIRE of the fill, drain and clear test holds, for every capacity up to 2^31 |
| `QueueTests.TestOffsetCalculation` | src/main/cpp/SpscMemoryMappedCacheLineQueue.h:161-169 | the offset self-test answers true for every capacity |
| `Sections.ExecOneLeaf` | cppbuild/catch-prefix/src/catch/include/internal/catch_test_case_tracker.hpp:65-104 | running a body with m leaves done enters exactly the sections down to leaf m and leaves m + 1 done |
| `SectionTracker.BodyEnters` | cppbuild/catch-prefix/src/catch/include/internal/catch_test_case_tracker.hpp:90-104 | entering, running and leaving a section through the current-section pointer is the local update of that section |
| `SectionTracker.EnteredState` | cppbuild/catch-prefix/src/catch/include/internal/catch_test_case_tracker.hpp:39-42 | a section is executing when first entered, and executing children when entered again |
| `SectionTracker.RunCoversNextLeaf` | cppbuild/catch-prefix/src/catch/include/internal/catch_runner_impl.hpp:252-274 | one run of a test enters one root-to-leaf path, the next in document order; the test is completed exactly after the last |
| `SectionTracker.LeafEnteredInOneRun` | cppbuild/catch-prefix/src/catch/include/internal/catch_test_case_tracker.hpp:65-135 | each leaf section is entered in exactly one run |
| `SectionTracker.CompletedRunIsQuiet` | cppbuild/catch-prefix/src/catch/include/internal/catch_runner_impl.hpp:106-112 | a completed test that is run again enters no section and stays completed |
| `SectionTracker.ChildrenCompleted` | cppbuild/catch-prefix/src/catch/include/internal/catch_test_case_tracker.hpp:71-80 | the loop over the children finds exactly whether all are completed |
| `SectionTracker.TestCaseTracker.EnterSection` | cppbuild/catch-prefix/src/catch/include/internal/catch_test_case_tracker.hpp:90-98 | acquires the child; enters it unless it is completed or a section already completed in this run |
| `SectionTracker.TestCaseTracker.LeaveSection` | cppbuild/catch-prefix/src/catch/include/internal/catch_test_case_tracker.hpp:99-104 | marks the current section by its children and moves to its parent |
| `Generators.AdvanceCounts` | cppbuild/catch-prefix/src/catch/include/internal/catch_generators_impl.hpp:64-72 | a true moveNext adds one to the mixed-radix number; a false one comes exactly on the last combination and leaves all indices zero |
| `Generators.EveryCombinationOnce` | cppbuild/catch-prefix/src/catch/include/internal/catch_generators_impl.hpp:21-72 | each index combination is visited at exactly one position |
| `Generators.RegistrationKeepsNumber` | cppbuild/catch-prefix/src/catch/include/internal/catch_generators_impl.hpp:53-62 | a generator registered late does not change the number shown |
| `Generators.GeneratorInfo.MoveNext` | cppbuild/catch-prefix/src/catch/include/internal/catch_generators_impl.hpp:28-34 | steps one index, wrapping to zero at its size, with 64-bit wrap-around |
| `Generators.GeneratorsForTest.GetGeneratorInfo` | cppbuild/catch-prefix/src/catch/include/internal/catch_generators_impl.hpp:53-62 | returns the generator registered under the name, or appends a new one at zero |
| `Generators.GeneratorsForTest.MoveNext` | cppbuild/catch-prefix/src/catch/include/internal/catch_generators_impl.hpp:64-72 | the carry loop over the generators is one odometer step |
| `Generators.AdvanceDigits` | cppbuild/catch-prefix/src/catch/include/internal/catch_generators_impl.hpp:64-72 | moveNext leads from each combination to the next, and from the last back to the first with the answer false |
| `Runner.RegisteredNames` | cppbuild/catch-prefix/src/catch/include/internal/catch_generators_impl.hpp:53-62 | after i runs exactly those generators are registered that were before, or that the test's own block or a section on the way to one of the first i leaves evaluates |
| `Runner.RegisteredAt` | cppbuild/catch-prefix/src/catch/include/internal/catch_generators_impl.hpp:53-62 | they are registered in the order of first evaluation: earlier leaves before later ones, outer blocks before inner ones, earlier places before later ones |
| `Runner.KnownSettles` | cppbuild/catch-prefix/src/catch/include/internal/catch_generators_impl.hpp:53-62 | once every leaf has been run, no run meets a new generator |
| `Runner.AdvanceShows` | cppbuild/catch-prefix/src/catch/include/internal/catch_runner_impl.hpp:106-112 | after the sections are covered, advancing shows the next combination, or ends the loop exactly after the last with all generators at their first value |
| `Runner.CombinationInOneRun` | cppbuild/catch-prefix/src/catch/include/internal/catch_runner_impl.hpp:106-112 | from the run of the last leaf on, each combination of generator values is shown in exactly one run |
| `Runner.CombineExactly` | cppbuild/catch-prefix/src/catch/include/internal/catch_runner_impl.hpp:106-112 | every leaf is run with every combination of generator values if and only if the test has no sections or its generators have a single combination |
| `Runner.OneCombination` | cppbuild/catch-prefix/src/catch/include/internal/catch_generators_impl.hpp:64-72 | there is a single combination if and only if every generator has one value |
| `Runner.SecondValueMissesSection` | cppbuild/catch-prefix/src/catch/include/internal/catch_runner_impl.hpp:106-112 | a test with one section and one generator of two values, whose section is never run with the second |
| `Runner.GeneratorInsideSection` | cppbuild/catch-prefix/src/catch/include/internal/catch_runner_impl.hpp:106-112 | a test whose only generator, of three values, is inside its only section: three runs, showing each value, the last two outside the section |
| `Runner.RunContext.EvaluateGenerators` | cppbuild/catch-prefix/src/catch/include/internal/catch_generators_impl.hpp:53-62 | evaluating generators registers each on its first evaluation, in that order, at its first value, and moves none |
| `Runner.RunContext.RunCurrentTest` | cppbuild/catch-prefix/src/catch/include/internal/catch_runner_impl.hpp:252-274 | one run enters the tracker's sections, and registers exactly the generators of the test itself and of every section it entered |
| `Runner.RunContext.RunTest` | cppbuild/catch-prefix/src/catch/include/internal/catch_runner_impl.hpp:106-112 | the nested loops make one run for each leaf and one for each further combination of generator values: run i enters exactly the path to leaf i with all generators at their first value, every later run enters no section and shows the next combination; it stops early exactly when a run leaves the runner aborting |
| `TestSpec.LowerCharIs` | cppbuild/catch-prefix/src/catch/include/internal/catch_common.hpp:24-31 | the lower case pairs 'A'..'Z' with 'a'..'z' and keeps every other character |
| `TestSpec.MakeNameMeans` | cppbuild/catch-prefix/src/catch/include/internal/catch_test_spec.hpp:36-68 | a name pattern matches exactly the names that hold the token's text where its leading and trailing stars allow, up to the case of letters |
| `TestSpec.MakeTagMeans` | cppbuild/catch-prefix/src/catch/include/internal/catch_test_spec.hpp:73-82 | a tag pattern matches exactly the tests that have the tag, up to the case of letters |
| `TestSpec.CaseIsIgnored` | cppbuild/catch-prefix/src/catch/include/internal/catch_test_spec.hpp:36-82 | tokens and names that differ only in the case of letters get the same answer |
| `TestSpec.PlainNameMeans` | cppbuild/catch-prefix/src/catch/include/internal/catch_test_spec.hpp:48-51 | a token without stars matches exactly the names that differ from it in the case of letters only |
| `TestSpec.FilterMatches` | cppbuild/catch-prefix/src/catch/include/internal/catch_test_spec.hpp:95-101 | true if and only if all patterns match |
| `TestSpec.SpecMatches` | cppbuild/catch-prefix/src/catch/include/internal/catch_test_spec.hpp:108-114 | true if and only if some filter matches |
| `SpecParser.TestSpecParser.VisitChar` | cppbuild/catch-prefix/src/catch/include/internal/catch_test_spec_parser.hpp:50-77 | one character moves the parser object as the value-level step does, whose meaning is WrittenMeans |
| `SpecParser.TestSpecParser.Parse` | cppbuild/catch-prefix/src/catch/include/internal/catch_test_spec_parser.hpp:34-44 | the character loop reads the whole text, without resetting the filter of an earlier call, as ParsedJoins says |
| `SpecSyntax.WrittenMeans` | cppbuild/catch-prefix/src/catch/include/internal/catch_test_spec_parser.hpp:50-98 | specs of bare names, quoted names and tags, with spaces and ~ in front, exclude: before the token or before a tag, and commas between filters, parse to exactly the items meant |
| `SpecSyntax.WrittenSelects` | cppbuild/catch-prefix/src/catch/include/internal/catch_test_spec.hpp:92-114 | such a spec selects exactly the test cases its items ask for |
| `SpecSyntax.UnclosedIsDropped` | cppbuild/catch-prefix/src/catch/include/internal/catch_test_spec_parser.hpp:39-43 | a quoted name or tag that is never closed adds nothing |
| `SpecSyntax.ParsedJoins` | cppbuild/catch-prefix/src/catch/include/internal/catch_test_spec_parser.hpp:34-48 | a further parse call continues the filter left open by the calls before: the last filter so far and the first of the new text become one |
| `SpecSyntax.ParseArguments` | cppbuild/catch-prefix/src/catch/include/internal/catch_config.hpp:93-98 | a parser that reads several arguments gives the filters of all of them joined in this way |
| `SpecParser.RoundTrip` | cppbuild/catch-prefix/src/catch/include/internal/catch_test_spec_parser.hpp:34-104 | printing any list of non-empty filters of printable tags and quoted names and parsing it gives the same items in the same order |
| `SpecParser.SpecRoundTripExactly` | cppbuild/catch-prefix/src/catch/include/internal/catch_test_spec_parser.hpp:34-104 | a list of filters survives printing and parsing if and only if every filter has an item and every token is printable: not empty, no closing delimiter after its first character, not led by exclude: |
| `SpecParser.ItemRoundTripExactly` | cppbuild/catch-prefix/src/catch/include/internal/catch_test_spec_parser.hpp:50-98 | one item survives if and only if its token is printable |
| `SpecParser.ParsedSpecSelects` | cppbuild/catch-prefix/src/catch/include/internal/catch_test_spec.hpp:92-114 | the parsed spec selects exactly the test cases its items ask for |

## Left out

- Creating, mapping, waiting for and unmapping the file: operating-system calls.
- Timing, throughput, sleeping, yielding and pausing: a spin is a step that changes nothing or counts a retry.
- Sub-word payload accesses: a slot is eight 64-bit words and the 32-bit payload access of the rigs is an access to word 0; the wide accessor surface of the Java cache line is not modelled.
- `Words.MaskedWrap`: idealises the mask to up to 64 bits, where C++ stores it in 32 unsigned and Java in 32 signed bits.
- `QueueTests.TestAddAndPurge`: not stated for capacities above 2^31, where the test's own `int` counter overflows.
- `RingTheorems.ProducerSizeExact`: says nothing of a third process that calls size, which is only in range.
- Starting the source before the sink is constructed, and the buffered store that resets the sync word: a rig starts after both.
- `SectionTracker.TestCaseTracker.EnterSection`: the current-section and parent pointers are paths from the root of a tree of values, so aliasing between section objects is not modelled.
- `Runner.RunContext.RunTest`: no exceptions; sibling sections have distinct keys; the sections and the generators of a block do not depend on generator values, and the generators come before the sections.
- `Runner.CombineExactly`: for the same tests.
- `DeployedRig.FairDeployedRunDelivers`: the numbers of messages and of states fit an `int`, as in the rigs.
- `SpecSyntax.WrittenMeans`: tag aliases are taken as already expanded; spaces stand before an item, not between an item and the comma after it.
- `TestSpec.MakeNameMeans`: lower-casing is that of the C locale.
- The rest of Catch (reporters, command line, registries, signal handling), CPU statistics and option parsing.
